/** Resolving a credential template: `$NAME` and `${NAME}` references, `$$` and `$!` escapes, and
    command-backed values (src/panopticon/harnesses/pi.py). */
module KeyTemplate {
  import opened Models
  import Sequences

  /** A piece of a template. Text stands for itself, and so does a brace group that holds no name. */
  datatype Piece = Text(text: string) | Escape(c: char) | Reference(name: string, braced: bool) {
    /** How the template spells it. */
    function Spelling(): string {
      match this
      case Text(t) => t
      case Escape(c) => ['$', c]
      case Reference(n, braced) => if braced then "${" + n + "}" else "$" + n
    }

    function Value(environ: map<string, string>): Option<string> {
      match this
      case Text(t) => Some(t)
      case Escape(c) => Some([c])
      case Reference(n, _) => if n in environ && environ[n] != "" then Some(environ[n]) else None
    }
  }

  predicate NameStart(c: char) {
    'A' <= c <= 'Z' || 'a' <= c <= 'z' || c == '_'
  }

  predicate NameChar(c: char) {
    NameStart(c) || '0' <= c <= '9'
  }

  /** The length of the longest prefix without `c`. */
  function Until(s: string, c: char): (n: nat)
    ensures n <= |s| && c !in s[..n] && (n < |s| ==> s[n] == c)
  {
    if s == "" || s[0] == c then 0
    else
      var n := Until(s[1..], c);
      assert s[..n + 1] == [s[0]] + s[1..][..n];
      n + 1
  }

  function NameChars(s: string): (n: nat)
    ensures n <= |s| && (forall i :: 0 <= i < n ==> NameChar(s[i])) && (n < |s| ==> !NameChar(s[n]))
  {
    if s == "" || !NameChar(s[0]) then 0
    else
      var n := NameChars(s[1..]);
      assert forall i :: 0 < i < n + 1 ==> s[i] == s[1..][i - 1];
      n + 1
  }

  /** The length of the longest name that `s` starts with, or zero. */
  function NameLength(s: string): (n: nat)
    ensures n <= |s| && (n > 0 ==> IsName(s[..n])) && (n < |s| && n > 0 ==> !NameChar(s[n]))
  {
    if s == "" || !NameStart(s[0]) then 0 else NameChars(s)
  }

  predicate IsName(s: string) {
    s != "" && NameStart(s[0]) && forall i :: 0 <= i < |s| ==> NameChar(s[i])
  }

  /** The piece that starts at a dollar sign. */
  function AtDollar(s: string): (p: Piece)
    requires s != "" && s[0] == '$'
    ensures 0 < |p.Spelling()| <= |s|
  {
    if |s| > 1 && (s[1] == '$' || s[1] == '!') then Escape(s[1])
    else if |s| > 1 && s[1] == '{' then
      var end := Until(s[2..], '}');
      if end == |s| - 2 then Text("$")
      else
        var name := s[2..2 + end];
        if IsName(name) then Reference(name, true) else Text(s[..end + 3])
    else
      var n := NameLength(s[1..]);
      if n > 0 then Reference(s[1..][..n], false) else Text("$")
  }

  function NextPiece(s: string): (p: Piece)
    requires s != ""
    ensures 0 < |p.Spelling()| <= |s|
  {
    if s[0] == '$' then AtDollar(s) else Text(s[..Until(s, '$')])
  }

  /** A template's pieces: they depend on its own text alone, so nothing substituted is scanned. */
  function Pieces(s: string): seq<Piece>
    decreases |s|
  {
    if s == "" then [] else [NextPiece(s)] + Pieces(s[|NextPiece(s).Spelling()|..])
  }

  function Values(pieces: seq<Piece>, environ: map<string, string>): Option<string> {
    if pieces == [] then Some("")
    else
      match (pieces[0].Value(environ), Values(pieces[1..], environ))
      case (Some(v), Some(more)) => Some(v + more)
      case _ => None
  }

  ghost predicate Missing(piece: Piece, environ: map<string, string>) {
    piece.Reference? && !(piece.name in environ && environ[piece.name] != "")
  }

  /** What resolving means: nothing for an empty value, itself for a command, and otherwise the
      values of its pieces. */
  function Resolved(value: string, environ: map<string, string>): Option<string> {
    if value == "" then None
    else if value[0] == '!' then Some(value)
    else Values(Pieces(value), environ)
  }

  // ---- the pieces -----------------------------------------------------------------------------

  function Spelled(pieces: seq<Piece>): string {
    if pieces == [] then "" else pieces[0].Spelling() + Spelled(pieces[1..])
  }

  /** A piece is spelled as the template starts. */
  lemma PieceIsPrefix(s: string)
    requires s != ""
    ensures NextPiece(s).Spelling() == s[..|NextPiece(s).Spelling()|]
  {
    if s[0] == '$' {
      if |s| > 1 && s[1] == '{' {
        var end := Until(s[2..], '}');
        assert end < |s| - 2 ==> s[..end + 3] == "${" + s[2..2 + end] + "}";
      } else {
        var n := NameLength(s[1..]);
        assert s[..n + 1] == "$" + s[1..][..n];
      }
    }
  }

  /** The pieces are the template, cut up. */
  lemma {:induction false} PiecesSpellTheTemplate(s: string)
    ensures Spelled(Pieces(s)) == s
    decreases |s|
  {
    if s == "" {
    } else {
      var n := |NextPiece(s).Spelling()|;
      PiecesSpellTheTemplate(s[n..]);
      PieceIsPrefix(s);
      Sequences.Halves(s, n);
    }
  }

  lemma {:induction false} ValuesFailOnlyOnMissing(pieces: seq<Piece>, environ: map<string, string>)
    ensures Values(pieces, environ).None? <==> exists i :: 0 <= i < |pieces| && Missing(pieces[i], environ)
  {
    if pieces == [] {
    } else {
      ValuesFailOnlyOnMissing(pieces[1..], environ);
      if j :| 0 <= j < |pieces[1..]| && Missing(pieces[1..][j], environ) {
        assert Missing(pieces[j + 1], environ);
      }
      if j :| 0 <= j < |pieces| && Missing(pieces[j], environ) {
        if j > 0 {
          assert Missing(pieces[1..][j - 1], environ);
        }
      }
    }
  }

  /** A value that is neither empty nor a command resolves to nothing exactly when one of its
      references is unset or empty, and otherwise to a text that is not empty. */
  lemma NothingOnlyForMissing(value: string, environ: map<string, string>)
    requires value != "" && value[0] != '!'
    ensures Resolved(value, environ).None? <==>
            exists i :: 0 <= i < |Pieces(value)| && Missing(Pieces(value)[i], environ)
    ensures Resolved(value, environ) != Some("")
  {
    ValuesFailOnlyOnMissing(Pieces(value), environ);
    var first := NextPiece(value);
    assert Pieces(value)[0] == first;
    if first.Value(environ).Some? {
      assert first.Value(environ).value != "";
    }
  }

  /** At a dollar sign stands a reference `$NAME` exactly when a name follows and does not go on. */
  lemma PlainReference(s: string, name: string)
    requires s != "" && s[0] == '$'
    ensures AtDollar(s) == Reference(name, false) <==>
            IsName(name) && "$" + name <= s && (|name| + 1 < |s| ==> !NameChar(s[|name| + 1]))
  {
    if IsName(name) && "$" + name <= s && (|name| + 1 < |s| ==> !NameChar(s[|name| + 1])) {
      var rest := s[1..];
      assert rest[..|name|] == name by {
        assert ("$" + name)[1..] == name;
      }
      assert forall i :: 0 <= i < |name| ==> rest[i] == rest[..|name|][i];
      NameCharsAre(rest, |name|);
    }
  }

  lemma NameCharsAre(s: string, n: nat)
    requires n <= |s| && (forall i :: 0 <= i < n ==> NameChar(s[i])) && (n < |s| ==> !NameChar(s[n]))
    ensures NameChars(s) == n
  {
  }

  lemma InBraces(s: string, name: string)
    requires s != "" && s[0] == '$' && IsName(name) && "${" + name + "}" <= s
    ensures |s| > 1 && s[1] == '{' && Until(s[2..], '}') == |name| < |s| - 2 && s[2..2 + |name|] == name
  {
    var spelled := "${" + name + "}";
    assert s[..|spelled|] == spelled;
    assert s[1] == spelled[1] && s[|name| + 2] == spelled[|name| + 2];
    assert s[2..2 + |name|] == spelled[2..2 + |name|] == name;
    assert s[2..][..|name|] == name;
    UntilIs(s[2..], '}', |name|);
  }

  /** And a reference `${NAME}` exactly when a name stands in braces. */
  lemma BracedReference(s: string, name: string)
    requires s != "" && s[0] == '$'
    ensures AtDollar(s) == Reference(name, true) <==> IsName(name) && "${" + name + "}" <= s
  {
    if IsName(name) && "${" + name + "}" <= s {
      InBraces(s, name);
    } else if AtDollar(s) == Reference(name, true) {
      PieceIsPrefix(s);
    }
  }

  // ---- the scanner ----------------------------------------------------------------------------

  function Concat(parts: seq<string>): string {
    if parts == [] then "" else Concat(parts[..|parts| - 1]) + parts[|parts| - 1]
  }

  lemma ConcatMore(parts: seq<string>, part: string)
    ensures Concat(parts + [part]) == Concat(parts) + part
  {
    assert (parts + [part])[..|parts|] == parts;
  }

  function Before(front: string, r: Option<string>): Option<string> {
    if r.Some? then Some(front + r.value) else None
  }

  lemma BeforeTwice(a: string, b: string, r: Option<string>)
    ensures Before(a, Before(b, r)) == Before(a + b, r)
  {
    if r.Some? {
      assert a + (b + r.value) == a + b + r.value;
    }
  }

  /** What is resolved so far, and what the rest of the template resolves to. */
  ghost predicate Scanned(value: string, environ: map<string, string>, resolved: seq<string>, rest: string) {
    Values(Pieces(value), environ) == Before(Concat(resolved), Values(Pieces(rest), environ))
  }

  lemma FirstPiece(rest: string, environ: map<string, string>)
    requires rest != ""
    ensures var piece := NextPiece(rest);
            Values(Pieces(rest), environ) ==
            match piece.Value(environ)
            case None => None
            case Some(v) => Before(v, Values(Pieces(rest[|piece.Spelling()|..]), environ))
  {
    assert Pieces(rest)[1..] == Pieces(rest[|NextPiece(rest).Spelling()|..]);
  }

  lemma ScanPiece(value: string, environ: map<string, string>, resolved: seq<string>, rest: string)
    requires Scanned(value, environ, resolved, rest) && rest != ""
    ensures var piece := NextPiece(rest);
            var v := piece.Value(environ);
            if v.None? then Values(Pieces(value), environ) == None
            else Scanned(value, environ, resolved + [v.value], rest[|piece.Spelling()|..])
  {
    var piece := NextPiece(rest);
    FirstPiece(rest, environ);
    if piece.Value(environ).Some? {
      var v := piece.Value(environ).value;
      ConcatMore(resolved, v);
      BeforeTwice(Concat(resolved), v, Values(Pieces(rest[|piece.Spelling()|..]), environ));
    }
  }

  lemma ScanStarts(value: string, environ: map<string, string>)
    ensures Scanned(value, environ, [], value)
  {
    var r := Values(Pieces(value), environ);
    if r.Some? {
      assert "" + r.value == r.value;
    }
  }

  lemma ScanEnds(value: string, environ: map<string, string>, resolved: seq<string>)
    requires Scanned(value, environ, resolved, "")
    ensures Values(Pieces(value), environ) == Some(Concat(resolved))
  {
    assert Concat(resolved) + "" == Concat(resolved);
  }

  /** The branches taken at a dollar sign: what to append, or nothing when a reference is missing,
      and how far to move on. */
  method ScanDollar(rest: string, environ: map<string, string>) returns (part: Option<string>, size: nat)
    requires rest != "" && rest[0] == '$'
    ensures part == AtDollar(rest).Value(environ) && size == |AtDollar(rest).Spelling()|
  {
    if |rest| > 1 && (rest[1] == '$' || rest[1] == '!') {
      return Some([rest[1]]), 2;
    }
    if |rest| > 1 && rest[1] == '{' {
      var end := Until(rest[2..], '}');
      if end == |rest| - 2 { return Some("$"), 1; }
      var name := rest[2..2 + end];
      if !IsName(name) { return Some(rest[..end + 3]), end + 3; }
      if name !in environ || environ[name] == "" { return None, end + 3; }
      return Some(environ[name]), end + 3;
    }
    var n := NameLength(rest[1..]);
    if n == 0 { return Some("$"), 1; }
    var name := rest[1..][..n];
    if name !in environ || environ[name] == "" { return None, n + 1; }
    return Some(environ[name]), n + 1;
  }

  /** The next piece, from the position of the next dollar sign. */
  method ScanNext(rest: string, environ: map<string, string>) returns (part: Option<string>, size: nat)
    requires rest != ""
    ensures part == NextPiece(rest).Value(environ) && size == |NextPiece(rest).Spelling()|
  {
    var dollar := Until(rest, '$');
    if dollar > 0 {
      return Some(rest[..dollar]), dollar;
    }
    part, size := ScanDollar(rest, environ);
  }

  /** One turn of the loop: the next part and its length in the template. */
  method ScanOne(ghost value: string, environ: map<string, string>, ghost resolved: seq<string>, rest: string)
    returns (part: Option<string>, size: nat)
    requires Scanned(value, environ, resolved, rest) && rest != ""
    ensures 0 < size <= |rest|
    ensures part.None? ==> Values(Pieces(value), environ) == None
    ensures part.Some? ==> Scanned(value, environ, resolved + [part.value], rest[size..])
  {
    part, size := ScanNext(rest, environ);
    ScanPiece(value, environ, resolved, rest);
  }

  /** The parts to join, or nothing when a reference is missing. `rest` is what stands from the
      source's index on. */
  method ScanAll(value: string, environ: map<string, string>) returns (parts: Option<seq<string>>)
    ensures Values(Pieces(value), environ) == if parts.Some? then Some(Concat(parts.value)) else None
  {
    var resolved: seq<string> := [];
    var rest := value;
    ScanStarts(value, environ);
    while rest != ""
      invariant Scanned(value, environ, resolved, rest)
      decreases |rest|
    {
      var part, size := ScanOne(value, environ, resolved, rest);
      if part.None? { return None; }
      resolved, rest := resolved + [part.value], rest[size..];
    }
    ScanEnds(value, environ, resolved);
    return Some(resolved);
  }

  method ResolvedKey(value: string, environ: map<string, string>) returns (r: Option<string>)
    ensures r == Resolved(value, environ)
    ensures value == "" ==> r.None?
    ensures "!" <= value ==> r == Some(value)
  {
    if value == "" { return None; }
    if value[0] == '!' { return Some(value); }
    var parts := ScanAll(value, environ);
    if parts.None? { return None; }
    NothingOnlyForMissing(value, environ);
    var text := Concat(parts.value);
    return if text == "" then None else Some(text);
  }

  // ---- quoting --------------------------------------------------------------------------------

  function Doubled(text: string): string {
    if text == "" then "" else (if text[0] == '$' then "$$" else [text[0]]) + Doubled(text[1..])
  }

  /** The template that stands for a text: dollar signs doubled, a leading `!` written `$!`. */
  function Quoted(text: string): string {
    if text != "" && text[0] == '!' then "$!" + Doubled(text[1..]) else Doubled(text)
  }

  lemma {:induction false} DoubledRun(text: string, n: nat)
    requires n <= |text| && '$' !in text[..n]
    ensures Doubled(text) == text[..n] + Doubled(text[n..])
  {
    if n == 0 {
      assert text[0..] == text;
    } else {
      assert text[1..][..n - 1] == text[1..n] && '$' !in text[1..n] by {
        assert forall c :: c in text[1..n] ==> c in text[..n];
      }
      DoubledRun(text[1..], n - 1);
      assert text[1..][n - 1..] == text[n..];
      assert [text[0]] + (text[1..n] + Doubled(text[n..])) == text[..n] + Doubled(text[n..]);
    }
  }

  lemma DoubledStarts(text: string)
    requires text != ""
    ensures Doubled(text) != "" && Doubled(text)[0] == text[0]
  {
  }

  /** A doubled text starts with an escape or with a run that ends before one. */
  lemma DoubledHead(text: string, n: nat)
    requires text != "" && n == Until(text, '$')
    ensures n == 0 ==> text[0] == '$' && Doubled(text) == ['$', '$'] + Doubled(text[1..])
    ensures n > 0 ==> '$' !in text[..n] && Doubled(text) == text[..n] + Doubled(text[n..])
    ensures 0 < n < |text| ==> Doubled(text[n..]) != "" && Doubled(text[n..])[0] == '$'
  {
    if n > 0 {
      DoubledRun(text, n);
      if n < |text| {
        DoubledStarts(text[n..]);
      }
    }
  }

  lemma EscapePiece(c: char, tail: string)
    requires c == '$' || c == '!'
    ensures NextPiece(['$', c] + tail) == Escape(c) && (['$', c] + tail)[2..] == tail
  {
  }

  lemma RunPiece(run: string, tail: string)
    requires run != "" && '$' !in run && (tail != "" ==> tail[0] == '$')
    ensures NextPiece(run + tail) == Text(run) && (run + tail)[|run|..] == tail
  {
    var s := run + tail;
    assert s[..|run|] == run && s[|run|..] == tail;
    UntilIs(s, '$', |run|);
  }

  lemma UntilIs(s: string, c: char, n: nat)
    requires n <= |s| && c !in s[..n] && (n < |s| ==> s[n] == c)
    ensures Until(s, c) == n
  {
    var m := Until(s, c);
    assert forall i :: 0 <= i < n ==> s[i] == s[..n][i];
    assert forall i :: 0 <= i < m ==> s[i] == s[..m][i];
  }

  /** A doubled text resolves to the text, whatever template follows it. */
  lemma {:induction false} DoubledThen(text: string, rest: string, environ: map<string, string>)
    requires rest != "" ==> rest[0] == '$'
    ensures Values(Pieces(Doubled(text) + rest), environ) == Before(text, Values(Pieces(rest), environ))
    decreases |text|
  {
    var after := Values(Pieces(rest), environ);
    if text == "" {
      assert Doubled(text) + rest == rest;
      assert after.Some? ==> "" + after.value == after.value;
    } else {
      var n := Until(text, '$');
      var next := if n == 0 then 1 else n;
      var head := if n == 0 then ['$', '$'] else text[..n];
      var tail := Doubled(text[next..]) + rest;
      DoubledHead(text, n);
      Sequences.Regroup(head, Doubled(text[next..]), rest);
      HeadThen(head, text[..next], tail, environ);
      DoubledThen(text[next..], rest, environ);
      BeforeTwice(text[..next], text[next..], after);
      Sequences.Halves(text, next);
    }
  }

  lemma HeadThen(head: string, value: string, tail: string, environ: map<string, string>)
    requires (head == ['$', '$'] && value == ['$']) || (head == ['$', '!'] && value == ['!'])
             || (head == value != "" && '$' !in head && (tail != "" ==> tail[0] == '$'))
    ensures Values(Pieces(head + tail), environ) == Before(value, Values(Pieces(tail), environ))
  {
    if head == value {
      RunPiece(head, tail);
    } else {
      EscapePiece(head[1], tail);
    }
    FirstPiece(head + tail, environ);
  }

  lemma DoubledResolves(text: string, environ: map<string, string>)
    ensures Values(Pieces(Doubled(text)), environ) == Some(text)
  {
    DoubledThen(text, "", environ);
    assert Doubled(text) + "" == Doubled(text) && text + "" == text;
  }

  /** A quoted text resolves to the text, whatever template follows it. */
  lemma QuotedThen(text: string, rest: string, environ: map<string, string>)
    requires rest != "" && rest[0] == '$'
    ensures Resolved(Quoted(text) + rest, environ) == Before(text, Values(Pieces(rest), environ))
  {
    var s := Quoted(text) + rest;
    if text == "" {
      DoubledThen(text, rest, environ);
    } else if text[0] == '!' {
      Sequences.Regroup(['$', '!'], Doubled(text[1..]), rest);
      HeadThen(['$', '!'], ['!'], Doubled(text[1..]) + rest, environ);
      DoubledThen(text[1..], rest, environ);
      BeforeTwice(['!'], text[1..], Values(Pieces(rest), environ));
      Sequences.Halves(text, 1);
      assert text[..1] == ['!'];
    } else {
      DoubledStarts(text);
      DoubledThen(text, rest, environ);
    }
  }

  /** Quoting any text but the empty one gives a template that resolves to it, whatever the
      environment; the empty text has no template. */
  lemma QuotedResolves(text: string, environ: map<string, string>)
    ensures Resolved(Quoted(text), environ) == if text == "" then None else Some(text)
  {
    if text != "" {
      if text[0] == '!' {
        var s := Quoted(text);
        assert s[2..] == Doubled(text[1..]);
        FirstPiece(s, environ);
        DoubledResolves(text[1..], environ);
        assert ['!'] + text[1..] == text;
      } else {
        DoubledStarts(text);
        DoubledResolves(text, environ);
      }
    }
  }

  // ---- references -----------------------------------------------------------------------------

  /** How a template refers to a name. */
  function Written(name: string, braced: bool): string {
    if braced then "${" + name + "}" else "$" + name
  }

  /** A reference that stands before `rest` is one: `$NAME` is not continued by it. */
  predicate EndsBefore(braced: bool, rest: string) {
    braced || rest == "" || !NameChar(rest[0])
  }

  lemma ReferenceStands(name: string, braced: bool, rest: string)
    requires IsName(name) && EndsBefore(braced, rest)
    ensures var s := Written(name, braced) + rest;
            s != "" && s[0] == '$' && NextPiece(s) == Reference(name, braced) && s[|Written(name, braced)|..] == rest
  {
    var s := Written(name, braced) + rest;
    if braced {
      BracedReference(s, name);
    } else {
      assert s[|name| + 1..] == rest;
      PlainReference(s, name);
    }
  }

  /** A set reference is replaced by what the environment holds for it, and the scan goes on behind it. */
  lemma ReferenceThen(text: string, name: string, braced: bool, rest: string, environ: map<string, string>)
    requires IsName(name) && name in environ && environ[name] != "" && EndsBefore(braced, rest)
    ensures Resolved(Quoted(text) + (Written(name, braced) + rest), environ) ==
            Before(text + environ[name], Values(Pieces(rest), environ))
  {
    var s := Written(name, braced) + rest;
    ReferenceStands(name, braced, rest);
    FirstPiece(s, environ);
    QuotedThen(text, s, environ);
    BeforeTwice(text, environ[name], Values(Pieces(rest), environ));
  }

  /** Whatever stands in the environment, dollar signs too, comes out as it is: quoted text, a reference
      and quoted text again resolve to the first text, the name's value and the second text. */
  lemma ReferenceIsReplaced(a: string, name: string, braced: bool, b: string, environ: map<string, string>)
    requires IsName(name) && name in environ && environ[name] != ""
    requires braced || b == "" || !NameChar(b[0])
    ensures Resolved(Quoted(a) + (Written(name, braced) + Doubled(b)), environ) == Some(a + environ[name] + b)
  {
    if b != "" {
      DoubledStarts(b);
    }
    ReferenceThen(a, name, braced, Doubled(b), environ);
    DoubledResolves(b, environ);
  }

  /** Without a value for the name, nothing comes out. */
  lemma MissingReferenceIsNothing(a: string, name: string, braced: bool, b: string, environ: map<string, string>)
    requires IsName(name) && (name in environ ==> environ[name] == "")
    requires braced || b == "" || !NameChar(b[0])
    ensures Resolved(Quoted(a) + (Written(name, braced) + Doubled(b)), environ) == None
  {
    if b != "" {
      DoubledStarts(b);
    }
    ReferenceStands(name, braced, Doubled(b));
    FirstPiece(Written(name, braced) + Doubled(b), environ);
    QuotedThen(a, Written(name, braced) + Doubled(b), environ);
  }
}
