/** Task capabilities: the bearer token derived for one task, and its decoding
    (src/panopticon/taskservice/auth.py). The MAC is any function with a 32-byte result. */
module Capability {
  import opened Bytes
  import opened Models

  // ---- UTF-8 (RFC 3629) -----------------------------------------------------------------------

  function EncodeChar(c: char): (r: bytes)
    ensures 1 <= |r| <= 4
  {
    var n := c as int;
    if n < 0x80 then [n as byte]
    else if n < 0x800 then [(0xC0 + n / 64) as byte, (0x80 + n % 64) as byte]
    else if n < 0x1_0000 then [(0xE0 + n / 4096) as byte, (0x80 + n / 64 % 64) as byte, (0x80 + n % 64) as byte]
    else [(0xF0 + n / 262144) as byte, (0x80 + n / 4096 % 64) as byte,
          (0x80 + n / 64 % 64) as byte, (0x80 + n % 64) as byte]
  }

  function EncodeUtf8(s: string): bytes {
    if s == [] then [] else EncodeChar(s[0]) + EncodeUtf8(s[1..])
  }

  /** The continuation value of a byte, or 64 when it is none. */
  function Continuation(b: byte): int {
    if 0x80 <= b < 0xC0 then b as int - 0x80 else 64
  }

  /** One code point and its length; strict about continuation bytes, shortest forms, surrogates and
      the upper bound. */
  function DecodeChar(b: bytes): Option<(int, nat)>
    requires b != []
  {
    var lead := b[0] as int;
    if lead < 0x80 then Some((lead, 1))
    else if 0xC2 <= lead < 0xE0 && |b| >= 2 && Continuation(b[1]) < 64 then
      Some(((lead - 0xC0) * 64 + Continuation(b[1]), 2))
    else if 0xE0 <= lead < 0xF0 && |b| >= 3 && Continuation(b[1]) < 64 && Continuation(b[2]) < 64 then
      var n := (lead - 0xE0) * 4096 + Continuation(b[1]) * 64 + Continuation(b[2]);
      if 0x800 <= n && !(0xD800 <= n < 0xE000) then Some((n, 3)) else None
    else if 0xF0 <= lead < 0xF5 && |b| >= 4 && Continuation(b[1]) < 64 && Continuation(b[2]) < 64
            && Continuation(b[3]) < 64 then
      var n := (lead - 0xF0) * 262144 + Continuation(b[1]) * 4096 + Continuation(b[2]) * 64 + Continuation(b[3]);
      if 0x1_0000 <= n < 0x11_0000 then Some((n, 4)) else None
    else None
  }

  function DecodeUtf8(b: bytes): Option<string>
    decreases |b|
  {
    if b == [] then Some([])
    else
      match DecodeChar(b)
      case None => None
      case Some((n, size)) =>
        if size > |b| || !(0 <= n < 0xD800 || 0xE000 <= n < 0x11_0000) then None
        else
          match DecodeUtf8(b[size..])
          case None => None
          case Some(rest) => Some([n as char] + rest)
  }

  lemma CharRoundTrip(c: char, rest: bytes)
    ensures DecodeChar(EncodeChar(c) + rest) == Some((c as int, |EncodeChar(c)|))
  {
    var n := c as int;
    var b := EncodeChar(c) + rest;
    assert n / 64 / 64 == n / 4096 && n / 4096 / 64 == n / 262144;
  }

  lemma {:induction false} Utf8RoundTrip(s: string)
    ensures DecodeUtf8(EncodeUtf8(s)) == Some(s)
  {
    if s == [] {
    } else {
      var b := EncodeUtf8(s);
      CharRoundTrip(s[0], EncodeUtf8(s[1..]));
      assert b[|EncodeChar(s[0])|..] == EncodeUtf8(s[1..]);
      Utf8RoundTrip(s[1..]);
      assert [s[0]] + s[1..] == s;
    }
  }

  // ---- base64url (RFC 4648, sections 4 and 5) -------------------------------------------------

  type sextet = x: int | 0 <= x < 64

  function Letter(v: sextet): (c: char)
    ensures c != '.' && c != '=' && Value(c) == Some(v)
  {
    if v < 26 then 'A' + v as char
    else if v < 52 then 'a' + (v - 26) as char
    else if v < 62 then '0' + (v - 52) as char
    else if v == 62 then '-' else '_'
  }

  /** The decoder accepts both alphabets: only `-` and `_` are translated, `+` and `/` stay valid. */
  function Value(c: char): Option<sextet> {
    if 'A' <= c <= 'Z' then Some(c as int - 'A' as int)
    else if 'a' <= c <= 'z' then Some(c as int - 'a' as int + 26)
    else if '0' <= c <= '9' then Some(c as int - '0' as int + 52)
    else if c == '-' || c == '+' then Some(62)
    else if c == '_' || c == '/' then Some(63)
    else None
  }

  /** The letters of one, two and three bytes. */
  function Encode1(x: byte): string {
    [Letter(x as int / 4), Letter(x as int % 4 * 16)]
  }

  function Encode2(x: byte, y: byte): string {
    [Letter(x as int / 4), Letter(x as int % 4 * 16 + y as int / 16), Letter(y as int % 16 * 4)]
  }

  function Encode3(x: byte, y: byte, z: byte): string {
    [Letter(x as int / 4), Letter(x as int % 4 * 16 + y as int / 16),
     Letter(y as int % 16 * 4 + z as int / 64), Letter(z as int % 64)]
  }

  /** Encoding without padding. */
  function Base64Url(v: bytes): string {
    if v == [] then ""
    else if |v| == 1 then Encode1(v[0])
    else if |v| == 2 then Encode2(v[0], v[1])
    else Encode3(v[0], v[1], v[2]) + Base64Url(v[3..])
  }

  /** Every letter is ASCII, and neither a pad nor the separator of the token's parts. */
  lemma {:induction false} Base64UrlLetters(v: bytes)
    ensures forall c :: c in Base64Url(v) ==> c as int < 0x80 && c != '.' && c != '='
    decreases |v|
  {
    if |v| < 3 {
    } else {
      Base64UrlLetters(v[3..]);
    }
  }

  /** The byte completed by the next sextet of a group. */
  function Completed(group: seq<sextet>, v: sextet): bytes
    requires |group| < 4
  {
    match |group|
    case 0 => []
    case 1 => [(group[0] * 4 + v / 16) as byte]
    case 2 => [(group[1] % 16 * 16 + v / 4) as byte]
    case _ => [(group[2] % 4 * 64 + v) as byte]
  }

  function Prepend(front: bytes, r: Option<bytes>): Option<bytes> {
    match r
    case None => None
    case Some(rest) => Some(front + rest)
  }

  lemma PrependTwice(a: bytes, b: bytes, r: Option<bytes>)
    ensures Prepend(a, Prepend(b, r)) == Prepend(a + b, r)
  {
    if r.Some? {
      assert a + (b + r.value) == a + b + r.value;
    }
  }

  /** The lenient decoder of Python's `binascii.a2b_base64`: characters outside the alphabet are
      skipped, a pad that completes a group ends the input, and an unfinished group is an error. */
  function Decode(s: string, group: seq<sextet>, pads: nat): Option<bytes>
    requires |group| < 4
  {
    if s == [] then if group == [] then Some([]) else None
    else if s[0] == '=' then
      if |group| >= 2 && |group| + pads + 1 >= 4 then Some([]) else Decode(s[1..], group, pads + 1)
    else
      match Value(s[0])
      case None => Decode(s[1..], group, pads)
      case Some(v) => Prepend(Completed(group, v), Decode(s[1..], if |group| == 3 then [] else group + [v], 0))
  }

  function Padding(n: nat): string {
    if n % 4 == 0 then "" else if n % 4 == 1 then "===" else if n % 4 == 2 then "==" else "="
  }

  function Padded(s: string): string {
    s + Padding(|s|)
  }

  function DecodeBase64(encoded: string): Option<bytes> {
    if exists c :: c in encoded && c as int >= 0x80 then None
    else Decode(Padded(encoded), [], 0)
  }

  lemma DecodeLetter(v: sextet, rest: string, group: seq<sextet>)
    requires |group| < 4
    ensures Decode([Letter(v)] + rest, group, 0)
            == Prepend(Completed(group, v), Decode(rest, if |group| == 3 then [] else group + [v], 0))
  {
    assert ([Letter(v)] + rest)[1..] == rest;
  }

  /** The first two letters of a group give its first byte. */
  lemma DecodePair(a: sextet, b: sextet, rest: string)
    ensures Decode([Letter(a), Letter(b)] + rest, [], 0) == Prepend([(a * 4 + b / 16) as byte], Decode(rest, [a, b], 0))
  {
    var s1 := [Letter(b)] + rest;
    assert [Letter(a), Letter(b)] + rest == [Letter(a)] + s1;
    DecodeLetter(a, s1, []);
    assert [] + [a] == [a] && [a] + [b] == [a, b];
    DecodeLetter(b, rest, [a]);
    PrependTwice([], [(a * 4 + b / 16) as byte], Decode(rest, [a, b], 0));
    assert [] + [(a * 4 + b / 16) as byte] == [(a * 4 + b / 16) as byte];
  }

  lemma DecodeTriple(a: sextet, b: sextet, c: sextet, rest: string)
    ensures Decode([Letter(a), Letter(b), Letter(c)] + rest, [], 0)
            == Prepend([(a * 4 + b / 16) as byte, (b % 16 * 16 + c / 4) as byte], Decode(rest, [a, b, c], 0))
  {
    var s1 := [Letter(c)] + rest;
    assert [Letter(a), Letter(b), Letter(c)] + rest == [Letter(a), Letter(b)] + s1;
    DecodePair(a, b, s1);
    DecodeLetter(c, rest, [a, b]);
    assert [a, b] + [c] == [a, b, c];
    var x, y := (a * 4 + b / 16) as byte, (b % 16 * 16 + c / 4) as byte;
    PrependTwice([x], [y], Decode(rest, [a, b, c], 0));
    assert [x] + [y] == [x, y];
  }

  /** Four letters are one group of three bytes. */
  lemma DecodeGroup(a: sextet, b: sextet, c: sextet, d: sextet, rest: string)
    ensures Decode([Letter(a), Letter(b), Letter(c), Letter(d)] + rest, [], 0)
            == Prepend([(a * 4 + b / 16) as byte, (b % 16 * 16 + c / 4) as byte, (c % 4 * 64 + d) as byte],
                       Decode(rest, [], 0))
  {
    var s1 := [Letter(d)] + rest;
    assert [Letter(a), Letter(b), Letter(c), Letter(d)] + rest == [Letter(a), Letter(b), Letter(c)] + s1;
    DecodeTriple(a, b, c, s1);
    DecodeLetter(d, rest, [a, b, c]);
    var x, y, z := (a * 4 + b / 16) as byte, (b % 16 * 16 + c / 4) as byte, (c % 4 * 64 + d) as byte;
    PrependTwice([x, y], [z], Decode(rest, [], 0));
    assert [x, y] + [z] == [x, y, z];
  }

  lemma DecodeOneByte(x: byte)
    ensures Decode(Padded(Encode1(x)), [], 0) == Some([x])
  {
    assert Padded(Encode1(x)) == Encode1(x) + "==";
    var a, b := x as int / 4, x as int % 4 * 16;
    DecodePair(a, b, "==");
    assert "=="[1..] == "=";
    assert Decode("=", [a, b], 1) == Some([]);
    assert [x] + [] == [x];
  }

  lemma DecodeTwoBytes(x: byte, y: byte)
    ensures Decode(Padded(Encode2(x, y)), [], 0) == Some([x, y])
  {
    assert Padded(Encode2(x, y)) == Encode2(x, y) + "=";
    var a, b, c := x as int / 4, x as int % 4 * 16 + y as int / 16, y as int % 16 * 4;
    DecodeTriple(a, b, c, "=");
    assert Decode("=", [a, b, c], 0) == Some([]);
    assert (a * 4 + b / 16) as byte == x && (b % 16 * 16 + c / 4) as byte == y;
    assert [x, y] + [] == [x, y];
  }

  lemma PaddedAfterGroup(group: string, rest: string)
    requires |group| == 4
    ensures Padded(group + rest) == group + Padded(rest)
  {
    assert (group + rest) + Padding(|rest|) == group + (rest + Padding(|rest|));
  }

  lemma DecodeThreeBytes(x: byte, y: byte, z: byte, rest: string)
    ensures Decode(Padded(Encode3(x, y, z) + rest), [], 0) == Prepend([x, y, z], Decode(Padded(rest), [], 0))
  {
    var a, b := x as int / 4, x as int % 4 * 16 + y as int / 16;
    var c, d := y as int % 16 * 4 + z as int / 64, z as int % 64;
    PaddedAfterGroup(Encode3(x, y, z), rest);
    DecodeGroup(a, b, c, d, Padded(rest));
    assert (a * 4 + b / 16) as byte == x && (b % 16 * 16 + c / 4) as byte == y && (c % 4 * 64 + d) as byte == z;
  }

  lemma DecodeNothing(s: string)
    requires s == ""
    ensures Decode(Padded(s), [], 0) == Some([])
  {
    assert Padded(s) == [];
  }

  lemma ShortGroup(v: bytes)
    ensures |v| == 1 ==> Base64Url(v) == Encode1(v[0])
    ensures |v| == 2 ==> Base64Url(v) == Encode2(v[0], v[1])
  {
  }

  lemma ShortList(v: bytes)
    ensures |v| == 1 ==> v == [v[0]]
    ensures |v| == 2 ==> v == [v[0], v[1]]
    ensures |v| >= 3 ==> v == [v[0], v[1], v[2]] + v[3..]
  {
  }

  lemma {:induction false} DecodeEncoded(v: bytes)
    ensures Decode(Padded(Base64Url(v)), [], 0) == Some(v)
    decreases |v|
  {
    ShortGroup(v);
    ShortList(v);
    if |v| == 0 {
      DecodeNothing(Base64Url(v));
    } else if |v| == 1 {
      DecodeOneByte(v[0]);
    } else if |v| == 2 {
      DecodeTwoBytes(v[0], v[1]);
    } else {
      DecodeThreeBytes(v[0], v[1], v[2], Base64Url(v[3..]));
      DecodeEncoded(v[3..]);
    }
  }

  lemma Base64RoundTrip(v: bytes)
    ensures DecodeBase64(Base64Url(v)) == Some(v)
  {
    Base64UrlLetters(v);
    DecodeEncoded(v);
  }

  lemma Base64Injective(u: bytes, v: bytes)
    requires Base64Url(u) == Base64Url(v)
    ensures u == v
  {
    Base64RoundTrip(u);
    Base64RoundTrip(v);
  }

  // ---- the capability -------------------------------------------------------------------------

  const PREFIX := "ptc1"
  const PROFILE := "self"
  const MAC_SIZE := 32

  /** The bytes of `panopticon-task-capability-v1` and a NUL. */
  const DOMAIN: bytes :=
    [112, 97, 110, 111, 112, 116, 105, 99, 111, 110, 45, 116, 97, 115, 107, 45, 99, 97, 112, 97, 98, 105,
     108, 105, 116, 121, 45, 118, 49, 0]

  /** The bytes of `self`. */
  const PROFILE_BYTES: bytes := [115, 101, 108, 102]

  /** A keyed function with 32-byte results. */
  datatype Mac = Mac(apply: (bytes, bytes) -> bytes) {
    ghost predicate Valid() {
      forall key, message :: |apply(key, message)| == MAC_SIZE
    }
  }

  /** What is authenticated for a task. */
  function Message(domain: bytes, taskId: string, profile: bytes): bytes {
    domain + EncodeUtf8(taskId) + [0] + profile
  }

  function Tag(mac: Mac, root: string, taskId: string): bytes {
    mac.apply(EncodeUtf8(root), Message(DOMAIN, taskId, PROFILE_BYTES))
  }

  function Derive(mac: Mac, root: string, taskId: string): string {
    PREFIX + "." + (Base64Url(EncodeUtf8(taskId)) + "." + (PROFILE + "." + Base64Url(Tag(mac, root, taskId))))
  }

  /** `str.split(".")`. */
  function Split(s: string): (parts: seq<string>)
    ensures parts != []
  {
    if s == [] then [""]
    else
      var rest := Split(s[1..]);
      if s[0] == '.' then [""] + rest else [[s[0]] + rest[0]] + rest[1..]
  }

  lemma {:induction false} SplitAtFirstDot(a: string, b: string)
    requires '.' !in a
    ensures Split(a + "." + b) == [a] + Split(b)
  {
    var s := a + "." + b;
    if a == [] {
      assert s[1..] == b;
    } else {
      assert s[1..] == a[1..] + "." + b;
      SplitAtFirstDot(a[1..], b);
      assert [a[0]] + a[1..] == a;
    }
  }

  lemma {:induction false} SplitWithoutDot(a: string)
    requires '.' !in a
    ensures Split(a) == [a]
  {
    if a == [] {
    } else {
      SplitWithoutDot(a[1..]);
      assert [a[0]] + a[1..] == a;
    }
  }

  lemma SplitFour(a: string, b: string, c: string, d: string)
    requires '.' !in a && '.' !in b && '.' !in c && '.' !in d
    ensures Split(a + "." + (b + "." + (c + "." + d))) == [a, b, c, d]
  {
    SplitAtFirstDot(a, b + "." + (c + "." + d));
    SplitAtFirstDot(b, c + "." + d);
    SplitAtFirstDot(c, d);
    SplitWithoutDot(d);
  }

  lemma SplitDerived(mac: Mac, root: string, taskId: string)
    ensures Split(Derive(mac, root, taskId))
            == [PREFIX, Base64Url(EncodeUtf8(taskId)), PROFILE, Base64Url(Tag(mac, root, taskId))]
  {
    Base64UrlLetters(EncodeUtf8(taskId));
    Base64UrlLetters(Tag(mac, root, taskId));
    SplitFour(PREFIX, Base64Url(EncodeUtf8(taskId)), PROFILE, Base64Url(Tag(mac, root, taskId)));
  }

  function DecodeCapability(mac: Mac, token: string, roots: seq<string>): Option<string> {
    var parts := Split(token);
    if |parts| != 4 then None
    else if parts[0] != PREFIX || parts[2] != PROFILE then None
    else if parts[1] == "" || '=' in parts[1] || parts[3] == "" || '=' in parts[3] then None
    else
      match (DecodeBase64(parts[1]), DecodeBase64(parts[3]))
      case (Some(subjectBytes), Some(tag)) =>
        (match DecodeUtf8(subjectBytes)
         case None => None
         case Some(subject) =>
           if Base64Url(subjectBytes) != parts[1] || |tag| != MAC_SIZE then None
           else if exists i :: 0 <= i < |roots| && token == Derive(mac, roots[i], subject) then Some(subject)
           else None)
      case _ => None
  }

  /** Decoding answers exactly for the capabilities that a configured root derives for a non-empty
      task id, and then with that id. */
  lemma DecodedIsDerived(mac: Mac, token: string, roots: seq<string>, taskId: string)
    requires mac.Valid()
    ensures DecodeCapability(mac, token, roots) == Some(taskId) <==>
            taskId != "" && exists i :: 0 <= i < |roots| && token == Derive(mac, roots[i], taskId)
  {
    if taskId != "" && exists i :: 0 <= i < |roots| && token == Derive(mac, roots[i], taskId) {
      var i :| 0 <= i < |roots| && token == Derive(mac, roots[i], taskId);
      DerivedIsDecoded(mac, roots, i, taskId);
    } else if DecodeCapability(mac, token, roots) == Some("") {
      assert Base64Url(EncodeUtf8("")) == "";
      EmptySubjectIsRefused(mac, token, roots);
    }
  }

  lemma EmptyDecodesEmpty(b: bytes)
    requires DecodeUtf8(b) == Some("")
    ensures b == []
  {
  }

  lemma EmptySubjectIsRefused(mac: Mac, token: string, roots: seq<string>)
    ensures DecodeCapability(mac, token, roots) != Some("")
  {
    var parts := Split(token);
    if |parts| == 4 && DecodeBase64(parts[1]).Some? && DecodeUtf8(DecodeBase64(parts[1]).value) == Some("") {
      EmptyDecodesEmpty(DecodeBase64(parts[1]).value);
    }
  }

  lemma EncodedIsNotEmpty(v: bytes)
    ensures v != [] ==> Base64Url(v) != ""
  {
  }

  lemma DerivedIsDecoded(mac: Mac, roots: seq<string>, i: nat, taskId: string)
    requires mac.Valid() && i < |roots| && taskId != ""
    ensures DecodeCapability(mac, Derive(mac, roots[i], taskId), roots) == Some(taskId)
  {
    var subject, tag := EncodeUtf8(taskId), Tag(mac, roots[i], taskId);
    SplitDerived(mac, roots[i], taskId);
    Base64RoundTrip(subject);
    Base64RoundTrip(tag);
    Utf8RoundTrip(taskId);
    assert subject != [] && |tag| == MAC_SIZE;
    EncodedIsNotEmpty(subject);
    EncodedIsNotEmpty(tag);
    Base64UrlLetters(subject);
    Base64UrlLetters(tag);
  }

  /** Whatever the MAC is, even if it collides, two equal capabilities name the same task. */
  lemma CapabilitiesNameOneTask(mac: Mac, root: string, taskId: string, root': string, taskId': string)
    requires Derive(mac, root, taskId) == Derive(mac, root', taskId')
    ensures taskId == taskId'
  {
    SplitDerived(mac, root, taskId);
    SplitDerived(mac, root', taskId');
    Base64Injective(EncodeUtf8(taskId), EncodeUtf8(taskId'));
    Utf8RoundTrip(taskId);
    Utf8RoundTrip(taskId');
  }

  // ---- the tag binds the root and the task ----------------------------------------------------

  /** The part of a capability that authenticates it. */
  function TagPart(capability: string): string {
    var parts := Split(capability);
    if |parts| == 4 then parts[3] else ""
  }

  /** A MAC that tells one key and message from all others. */
  function Telling(key: bytes, message: bytes): Mac {
    Mac((k, m) => if k == key && m == message then seq(MAC_SIZE, _ => 1) else seq(MAC_SIZE, _ => 0))
  }

  lemma TellingTells(key: bytes, message: bytes, k: bytes, m: bytes)
    ensures Telling(key, message).Valid()
    ensures Telling(key, message).apply(k, m) == Telling(key, message).apply(key, message) ==> k == key && m == message
  {
    assert Telling(key, message).apply(key, message)[0] == 1;
  }

  /** The bytes that are authenticated for a task: a domain, the task's id in UTF-8, a NUL and the profile,
      spelled in ASCII. */
  ghost predicate Authenticates(message: bytes, taskId: string) {
    exists domain: bytes, profile: bytes :: Framed(message, domain, EncodeUtf8(taskId), profile)
  }

  ghost predicate Framed(message: bytes, domain: bytes, subject: bytes, profile: bytes) {
    && Spells(domain, "panopticon-task-capability-v1") && Spells(profile, "self")
    && message == domain + [0] + subject + [0] + profile
  }

  ghost predicate Spells(b: bytes, text: string) {
    |b| == |text| && forall i :: 0 <= i < |b| ==> b[i] as int == text[i] as int
  }

  /** One message authenticates one task only. */
  lemma MessageNamesOneTask(message: bytes, taskId: string, taskId': string)
    requires Authenticates(message, taskId) && Authenticates(message, taskId')
    ensures taskId == taskId'
  {
    var d: bytes, p: bytes :| Framed(message, d, EncodeUtf8(taskId), p);
    var d': bytes, p': bytes :| Framed(message, d', EncodeUtf8(taskId'), p');
    SubjectIsFramed(message, d, EncodeUtf8(taskId), p);
    SubjectIsFramed(message, d', EncodeUtf8(taskId'), p');
    Utf8RoundTrip(taskId);
    Utf8RoundTrip(taskId');
  }

  lemma SubjectIsFramed(message: bytes, domain: bytes, subject: bytes, profile: bytes)
    requires Framed(message, domain, subject, profile)
    ensures |message| >= 35 && subject == message[30..|message| - 5]
  {
  }

  lemma DomainIsSpelled()
    ensures DOMAIN == DOMAIN[..29] + [0] && Spells(DOMAIN[..29], "panopticon-task-capability-v1")
    ensures Spells(PROFILE_BYTES, "self")
  {
  }

  lemma MessageAuthenticates(domain: bytes, front: bytes, taskId: string, profile: bytes)
    requires domain == front + [0] && Spells(front, "panopticon-task-capability-v1") && Spells(profile, "self")
    ensures Authenticates(Message(domain, taskId, profile), taskId)
  {
    assert Framed(Message(domain, taskId, profile), front, EncodeUtf8(taskId), profile);
  }

  /** The tag of a derived capability is the MAC, keyed with the root, of a message that authenticates the
      task. */
  lemma TagAuthenticates(mac: Mac, root: string, taskId: string) returns (message: bytes)
    ensures Authenticates(message, taskId)
    ensures DecodeBase64(TagPart(Derive(mac, root, taskId))) == Some(mac.apply(EncodeUtf8(root), message))
  {
    message := Message(DOMAIN, taskId, PROFILE_BYTES);
    DomainIsSpelled();
    MessageAuthenticates(DOMAIN, DOMAIN[..29], taskId, PROFILE_BYTES);
    TagIsMac(mac, root, taskId);
  }

  lemma TagIsMac(mac: Mac, root: string, taskId: string)
    ensures DecodeBase64(TagPart(Derive(mac, root, taskId)))
            == Some(mac.apply(EncodeUtf8(root), Message(DOMAIN, taskId, PROFILE_BYTES)))
  {
    SplitDerived(mac, root, taskId);
    Base64RoundTrip(Tag(mac, root, taskId));
  }

  /** The token's tag is the MAC, keyed with this root, of what authenticates the task. */
  ghost predicate Carries(mac: Mac, token: string, root: string, taskId: string) {
    exists message :: Authenticates(message, taskId) &&
                      DecodeBase64(TagPart(token)) == Some(mac.apply(EncodeUtf8(root), message))
  }

  /** An accepted token carries such a tag, keyed with a configured root, for the task it is accepted for. */
  lemma AcceptedTagAuthenticates(mac: Mac, token: string, roots: seq<string>, taskId: string)
    requires mac.Valid()
    ensures DecodeCapability(mac, token, roots) == Some(taskId) ==>
              exists i :: 0 <= i < |roots| && Carries(mac, token, roots[i], taskId)
  {
    DecodedIsDerived(mac, token, roots, taskId);
    if i :| 0 <= i < |roots| && token == Derive(mac, roots[i], taskId) {
      var message := TagAuthenticates(mac, roots[i], taskId);
      assert Carries(mac, token, roots[i], taskId);
    }
  }

  ghost predicate SameTag(mac: Mac, root: string, taskId: string, root': string, taskId': string) {
    TagPart(Derive(mac, root, taskId)) == TagPart(Derive(mac, root', taskId'))
  }

  /** Nothing but a collision of the MAC makes two tags equal: tags that agree under every MAC are of one
      root and one task. */
  lemma TagBindsRootAndTask(root: string, taskId: string, root': string, taskId': string)
    requires forall mac: Mac {:trigger mac.Valid()} :: mac.Valid() ==> SameTag(mac, root, taskId, root', taskId')
    ensures root == root' && taskId == taskId'
  {
    var key, message := EncodeUtf8(root), Message(DOMAIN, taskId, PROFILE_BYTES);
    var mac := Telling(key, message);
    TellingTells(key, message, EncodeUtf8(root'), Message(DOMAIN, taskId', PROFILE_BYTES));
    assert SameTag(mac, root, taskId, root', taskId');
    TagIsMac(mac, root, taskId);
    TagIsMac(mac, root', taskId');
    DomainIsSpelled();
    MessageAuthenticates(DOMAIN, DOMAIN[..29], taskId, PROFILE_BYTES);
    MessageAuthenticates(DOMAIN, DOMAIN[..29], taskId', PROFILE_BYTES);
    MessageNamesOneTask(message, taskId, taskId');
    Utf8RoundTrip(root);
    Utf8RoundTrip(root');
  }

  /** A token of four parts is accepted for the task that its second part names, if for any. */
  lemma SubjectIsNamed(mac: Mac, token: string, roots: seq<string>, taskId: string)
    requires mac.Valid() && |Split(token)| == 4 && Split(token)[1] == Base64Url(EncodeUtf8(taskId))
    ensures DecodeCapability(mac, token, roots).None? || DecodeCapability(mac, token, roots) == Some(taskId)
  {
    if DecodeCapability(mac, token, roots).Some? {
      var subject := DecodeCapability(mac, token, roots).value;
      DecodedIsDerived(mac, token, roots, subject);
      var i :| 0 <= i < |roots| && token == Derive(mac, roots[i], subject);
      SplitDerived(mac, roots[i], subject);
      Base64Injective(EncodeUtf8(taskId), EncodeUtf8(subject));
      Utf8RoundTrip(taskId);
      Utf8RoundTrip(subject);
    }
  }

  /** A token of another task with this tag. */
  function Transplanted(other: string, tag: string): string {
    PREFIX + "." + (Base64Url(EncodeUtf8(other)) + "." + (PROFILE + "." + tag))
  }

  lemma TransplantedParts(mac: Mac, root: string, taskId: string, other: string)
    ensures var tag := TagPart(Derive(mac, root, taskId));
            var token := Transplanted(other, tag);
            |Split(token)| == 4 && Split(token)[1] == Base64Url(EncodeUtf8(other)) && TagPart(token) == tag
  {
    SplitDerived(mac, root, taskId);
    Base64UrlLetters(EncodeUtf8(other));
    Base64UrlLetters(Tag(mac, root, taskId));
    SplitFour(PREFIX, Base64Url(EncodeUtf8(other)), PROFILE, TagPart(Derive(mac, root, taskId)));
  }

  /** A token that names one task and carries the tag of another is refused, unless the MAC collides on
      what is authenticated for the two. */
  lemma TransplantedTagIsRefused(mac: Mac, root: string, taskId: string, other: string)
    requires mac.Valid() && taskId != other
    requires forall m, m' {:trigger Authenticates(m, taskId), Authenticates(m', other)} ::
               Authenticates(m, taskId) && Authenticates(m', other) ==>
                 mac.apply(EncodeUtf8(root), m) != mac.apply(EncodeUtf8(root), m')
    ensures DecodeCapability(mac, Transplanted(other, TagPart(Derive(mac, root, taskId))), [root]).None?
  {
    var token := Transplanted(other, TagPart(Derive(mac, root, taskId)));
    TransplantedParts(mac, root, taskId, other);
    var m := TagAuthenticates(mac, root, taskId);
    SubjectIsNamed(mac, token, [root], other);
    AcceptedTagAuthenticates(mac, token, [root], other);
    assert Carries(mac, token, root, other) ==>
           exists m' :: Authenticates(m', other) && mac.apply(EncodeUtf8(root), m) == mac.apply(EncodeUtf8(root), m');
  }

  // ---- published examples ---------------------------------------------------------------------

  /** Test vectors of section 10 of RFC 4648, without their padding, and the last two letters of the
      URL-safe alphabet. */
  lemma Base64Vectors()
    ensures Base64Url([]) == "" && Base64Url([102]) == "Zg" && Base64Url([102, 111]) == "Zm8"
    ensures Base64Url([102, 111, 111]) == "Zm9v" && Base64Url([251, 255]) == "-_8"
  {
    assert [102, 111, 111][3..] == [];
  }

  /** The examples of section 7 of RFC 3629: one, two, three and four bytes. */
  lemma Utf8Vectors()
    ensures EncodeUtf8("A") == [0x41] && EncodeUtf8("\U{0391}") == [0xCE, 0x91]
    ensures EncodeUtf8("\U{2262}") == [0xE2, 0x89, 0xA2] && EncodeUtf8("\U{233B4}") == [0xF0, 0xA3, 0x8E, 0xB4]
  {
    assert "A"[1..] == "" && "\U{0391}"[1..] == "" && "\U{2262}"[1..] == "" && "\U{233B4}"[1..] == "";
  }
}
