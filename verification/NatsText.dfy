/**
  Scanning the deployed NATS ACL (crates/nats-profile/src/lib.rs): masking comments without moving any
  offset, finding the `nkey:` tokens, and splicing keys in their place.

  A text is a sequence of bytes, one character each. The functions walk a suffix at a time; the lemmas
  say what masking and splicing keep.
*/
module NatsText {
  import opened Common

  type Text = string

  const NKEY: Text := "nkey:"

  /** Letters, digits and underscores: what a token is made of. */
  predicate IsWord(c: char) {
    ('a' <= c <= 'z') || ('A' <= c <= 'Z') || ('0' <= c <= '9') || c == '_'
  }

  predicate AllWord(s: Text) {
    forall i | 0 <= i < |s| :: IsWord(s[i])
  }

  /** In ASCII: the digits, the upper case, the underscore and the lower case, and no other byte. */
  lemma WordBytes(c: char)
    ensures IsWord(c) <==>
      0x30 <= c as int <= 0x39 || 0x41 <= c as int <= 0x5A || c as int == 0x5F || 0x61 <= c as int <= 0x7A
  {
  }

  // ---------------------------------------------------------------------------------------------
  // Comments
  // ---------------------------------------------------------------------------------------------

  /** Where a scan is: a comment never starts inside a string. */
  datatype Mode = Plain | InString | InComment

  function NextMode(mode: Mode, c: char): Mode {
    match mode
    case InComment => if c == '\n' then Plain else InComment
    case InString => if c == '"' then Plain else InString
    case Plain => if c == '"' then InString else if c == '#' then InComment else Plain
  }

  function Masked(mode: Mode, c: char): char {
    if NextMode(mode, c).InComment? then ' ' else c
  }

  function Mask(s: Text, mode: Mode): (m: Text)
    ensures |m| == |s|
  {
    if s == [] then [] else [Masked(mode, s[0])] + Mask(s[1..], NextMode(mode, s[0]))
  }

  function ModeAfter(s: Text, mode: Mode): Mode {
    if s == [] then mode else ModeAfter(s[1..], NextMode(mode, s[0]))
  }

  /** The scan of the source, with its two flags. */
  method MaskComments(conf: Text) returns (masked: Text)
    ensures masked == Mask(conf, Plain)
  {
    masked := [];
    var inString, inComment := false, false;
    var i := 0;
    while i < |conf|
      invariant 0 <= i <= |conf| && !(inString && inComment) && masked == Mask(conf[..i], Plain)
      invariant ModeAfter(conf[..i], Plain) == if inComment then InComment else if inString then InString else Plain
    {
      var c := conf[i];
      MaskNext(conf, i);
      if inComment {
        if c == '\n' {
          inComment := false;
          masked := masked + ['\n'];
        } else {
          masked := masked + [' '];
        }
      } else if c == '"' {
        inString := !inString;
        masked := masked + [c];
      } else if c == '#' && !inString {
        inComment := true;
        masked := masked + [' '];
      } else {
        masked := masked + [c];
      }
      i := i + 1;
    }
    assert conf[..|conf|] == conf;
  }

  lemma MaskNext(s: Text, i: nat)
    requires i < |s|
    ensures var mode := ModeAfter(s[..i], Plain);
      && Mask(s[..i + 1], Plain) == Mask(s[..i], Plain) + [Masked(mode, s[i])]
      && ModeAfter(s[..i + 1], Plain) == NextMode(mode, s[i])
  {
    var mode := ModeAfter(s[..i], Plain);
    assert s[..i + 1] == s[..i] + [s[i]];
    MaskAppend(s[..i], [s[i]], Plain);
    assert Mask([s[i]], mode) == [Masked(mode, s[i])];
  }

  lemma {:induction false} MaskAppend(a: Text, b: Text, mode: Mode)
    ensures Mask(a + b, mode) == Mask(a, mode) + Mask(b, ModeAfter(a, mode))
    ensures ModeAfter(a + b, mode) == ModeAfter(b, ModeAfter(a, mode))
    decreases |a|
  {
    if a == [] {
      assert a + b == b;
    } else {
      assert (a + b)[1..] == a[1..] + b;
      MaskAppend(a[1..], b, NextMode(mode, a[0]));
    }
  }

  /** Masking changes nothing but comment text, which it turns into spaces. */
  lemma {:induction false} MaskAt(s: Text, mode: Mode, i: nat)
    requires i < |s|
    ensures Mask(s, mode)[i] ==
      if ModeAfter(s[..i + 1], mode).InComment? then ' ' else s[i]
    decreases |s|
  {
    var next := NextMode(mode, s[0]);
    assert s[..i + 1][1..] == s[1..][..i];
    if i > 0 {
      MaskAt(s[1..], next, i - 1);
    }
  }

  /** Masking twice is masking once: what was a comment is now blank. */
  lemma {:induction false} MaskIdempotent(s: Text, mode: Mode)
    ensures Mask(Mask(s, mode), if mode.InComment? then Plain else mode) == Mask(s, mode)
    decreases |s|
  {
    if s != [] {
      var next := NextMode(mode, s[0]);
      MaskIdempotent(s[1..], next);
      var m := Mask(s, mode);
      assert m[1..] == Mask(s[1..], next);
    }
  }

  function Blanks(n: nat): (s: Text)
    ensures |s| == n && forall i | 0 <= i < n :: s[i] == ' '
  {
    seq(n, _ => ' ')
  }

  lemma {:induction false} CommentBlanks(comment: Text, after: Text)
    requires forall i | 0 <= i < |comment| :: comment[i] != '\n'
    ensures Mask(comment + "\n" + after, InComment) == Blanks(|comment|) + "\n" + Mask(after, Plain)
    decreases |comment|
  {
    var s := comment + "\n" + after;
    if comment == [] {
      assert s[0] == '\n' && s[1..] == after;
      assert Blanks(0) + "\n" + Mask(after, Plain) == "\n" + Mask(after, Plain);
    } else {
      assert s[0] == comment[0] && s[1..] == comment[1..] + "\n" + after;
      CommentBlanks(comment[1..], after);
      assert Blanks(|comment|) == " " + Blanks(|comment| - 1);
      assert " " + (Blanks(|comment| - 1) + "\n" + Mask(after, Plain)) == Blanks(|comment|) + "\n" + Mask(after, Plain);
    }
  }

  /** From a hash outside strings to the end of its line a text is blanked; the line break and the rest stay. */
  lemma CommentsAreBlanked(before: Text, comment: Text, after: Text)
    requires ModeAfter(before, Plain) == Plain && forall i | 0 <= i < |comment| :: comment[i] != '\n'
    ensures Mask(before + ("#" + (comment + "\n" + after)), Plain)
         == Mask(before, Plain) + (" " + (Blanks(|comment|) + "\n" + Mask(after, Plain)))
  {
    var rest := "#" + (comment + "\n" + after);
    MaskAppend(before, rest, Plain);
    assert rest[0] == '#' && rest[1..] == comment + "\n" + after;
    CommentBlanks(comment, after);
  }

  lemma {:induction false} StringKept(body: Text, after: Text)
    requires forall i | 0 <= i < |body| :: body[i] != '"'
    ensures Mask(body + "\"" + after, InString) == body + "\"" + Mask(after, Plain)
    ensures ModeAfter(body + "\"" + after, InString) == ModeAfter(after, Plain)
    decreases |body|
  {
    var s := body + "\"" + after;
    if body == [] {
      assert s[0] == '"' && s[1..] == after;
    } else {
      assert s[0] == body[0] && s[1..] == body[1..] + "\"" + after;
      StringKept(body[1..], after);
      assert [body[0]] + (body[1..] + "\"" + Mask(after, Plain)) == body + "\"" + Mask(after, Plain);
    }
  }

  /** What stands in a string stays as it is, a hash included. */
  lemma StringsAreKept(before: Text, body: Text, after: Text)
    requires ModeAfter(before, Plain) == Plain && forall i | 0 <= i < |body| :: body[i] != '"'
    ensures Mask(before + ("\"" + (body + "\"" + after)), Plain)
         == Mask(before, Plain) + ("\"" + (body + "\"" + Mask(after, Plain)))
    ensures ModeAfter(before + ("\"" + (body + "\"" + after)), Plain) == ModeAfter(after, Plain)
  {
    var rest := "\"" + (body + "\"" + after);
    MaskAppend(before, rest, Plain);
    assert rest[0] == '"' && rest[1..] == body + "\"" + after;
    StringKept(body, after);
  }

  /** And so does everything in a text without a hash. */
  lemma {:induction false} NothingElseIsMasked(s: Text, mode: Mode)
    requires !mode.InComment? && forall i | 0 <= i < |s| :: s[i] != '#'
    ensures Mask(s, mode) == s
    ensures (forall i | 0 <= i < |s| :: s[i] != '"') ==> ModeAfter(s, mode) == mode
    decreases |s|
  {
    if s != [] {
      NothingElseIsMasked(s[1..], NextMode(mode, s[0]));
    }
  }

  /** A masked word is the word as written, outside any comment. */
  lemma {:induction false} WordsAreUnmasked(s: Text, mode: Mode)
    requires AllWord(Mask(s, mode)) && s != []
    ensures Mask(s, mode) == s && !mode.InComment? && ModeAfter(s, mode) == mode
    decreases |s|
  {
    var m := Mask(s, mode);
    assert IsWord(m[0]);
    assert m[1..] == Mask(s[1..], NextMode(mode, s[0]));
    if |s| > 1 {
      assert AllWord(m[1..]);
      WordsAreUnmasked(s[1..], NextMode(mode, s[0]));
    } else {
      assert s[1..] == [];
    }
  }

  lemma {:induction false} WordsKeepMode(s: Text, mode: Mode)
    requires AllWord(s) && !mode.InComment?
    ensures Mask(s, mode) == s && ModeAfter(s, mode) == mode
    decreases |s|
  {
    if s != [] {
      assert AllWord(s[1..]) && IsWord(s[0]);
      WordsKeepMode(s[1..], mode);
    }
  }

  // ---------------------------------------------------------------------------------------------
  // Tokens
  // ---------------------------------------------------------------------------------------------

  /** The first occurrence of a pattern. */
  function Find(s: Text, pattern: Text): (found: Option<nat>)
    ensures found.Some? ==> found.value + |pattern| <= |s|
  {
    if |s| < |pattern| then None
    else if s[..|pattern|] == pattern then Some(0)
    else if s == [] then None
    else match Find(s[1..], pattern)
      case None => None
      case Some(i) => Some(i + 1)
  }

  predicate OccursAt(s: Text, pattern: Text, i: nat) {
    i + |pattern| <= |s| && s[i..i + |pattern|] == pattern
  }

  lemma SliceOfTail(s: Text, j: nat, k: nat)
    requires 0 < j
    ensures j + k <= |s| ==> s[j..j + k] == s[1..][j - 1..j - 1 + k]
  {
  }

  lemma {:induction false} FindIsFirst(s: Text, pattern: Text)
    ensures match Find(s, pattern)
      case None => forall j: nat :: !OccursAt(s, pattern, j)
      case Some(i) => OccursAt(s, pattern, i) && forall j: nat | j < i :: !OccursAt(s, pattern, j)
    decreases |s|
  {
    if |pattern| <= |s| && s[..|pattern|] != pattern && s != [] {
      FindIsFirst(s[1..], pattern);
      forall j: nat | j > 0 ensures OccursAt(s, pattern, j) <==> OccursAt(s[1..], pattern, j - 1) {
        SliceOfTail(s, j, |pattern|);
      }
    }
  }

  lemma OccursInBoth(s: Text, t: Text, pattern: Text, n: nat, j: nat)
    requires n <= |s| && n <= |t| && s[..n] == t[..n] && j + |pattern| <= n
    ensures OccursAt(s, pattern, j) <==> OccursAt(t, pattern, j)
  {
    var k := j + |pattern|;
    assert s[j..k] == s[..n][j..k];
    assert t[j..k] == t[..n][j..k];
  }

  lemma {:induction false} FindIs(s: Text, pattern: Text, i: nat)
    requires OccursAt(s, pattern, i) && forall j: nat | j < i :: !OccursAt(s, pattern, j)
    ensures Find(s, pattern) == Some(i)
  {
    FindIsFirst(s, pattern);
  }

  /** The first occurrence depends only on the text up to its end. */
  lemma FindIsStable(s: Text, t: Text, pattern: Text, n: nat)
    requires Find(s, pattern).Some? && Find(s, pattern).value + |pattern| <= n <= |s| && n <= |t|
    requires s[..n] == t[..n]
    ensures Find(t, pattern) == Find(s, pattern)
  {
    var i := Find(s, pattern).value;
    FindIsFirst(s, pattern);
    forall j: nat | j <= i ensures OccursAt(s, pattern, j) <==> OccursAt(t, pattern, j) {
      OccursInBoth(s, t, pattern, n, j);
    }
    FindIs(t, pattern, i);
  }

  /** The bytes of the whitespace character at `i`, 0 if there is none. */
  function SpaceWidth(s: Text, i: nat): (w: nat)
    requires i <= |s|
    ensures i + w <= |s|
    ensures i < |s| && IsWord(s[i]) ==> w == 0
  {
    if i < |s| && (s[i] == ' ' || 9 <= s[i] as int <= 13) then 1
    else if i + 1 < |s| && s[i] as int == 0xC2 && (s[i + 1] as int == 0x85 || s[i + 1] as int == 0xA0) then 2
    else if i + 2 < |s| && Wide(s[i] as int, s[i + 1] as int, s[i + 2] as int) then 3
    else 0
  }

  /** The three-byte encodings of the other whitespace characters. */
  predicate Wide(a: int, b: int, c: int) {
    || (a == 0xE1 && b == 0x9A && c == 0x80)
    || (a == 0xE2 && b == 0x80 && (0x80 <= c <= 0x8A || c == 0xA8 || c == 0xA9 || c == 0xAF))
    || (a == 0xE2 && b == 0x81 && c == 0x9F)
    || (a == 0xE3 && b == 0x80 && c == 0x80)
  }

  /** The code points that count as white space. */
  predicate White(c: nat) {
    || 9 <= c <= 13 || c == 0x20 || c == 0x85 || c == 0xA0 || c == 0x1680 || 0x2000 <= c <= 0x200A
    || c == 0x2028 || c == 0x2029 || c == 0x202F || c == 0x205F || c == 0x3000
  }

  /** The bytes of a code point below 0x10000. */
  function Utf8(c: nat): (bytes: seq<nat>)
    requires c < 0x1_0000
  {
    if c < 0x80 then [c]
    else if c < 0x800 then [0xC0 + c / 64, 0x80 + c % 64]
    else [0xE0 + c / 4096, 0x80 + c / 64 % 64, 0x80 + c % 64]
  }

  predicate BytesAt(s: Text, i: nat, bytes: seq<nat>) {
    i + |bytes| <= |s| && forall k | 0 <= k < |bytes| :: s[i + k] as int == bytes[k]
  }

  /** The scan steps over exactly one white space character, by its own number of bytes, wherever there is one. */
  lemma SpacesAreWhite(s: Text, i: nat, c: nat)
    requires i <= |s| && c < 0x1_0000 && White(c) && BytesAt(s, i, Utf8(c))
    ensures SpaceWidth(s, i) == |Utf8(c)|
  {
    assert s[i + 0] as int == Utf8(c)[0];
    if c >= 0x80 {
      assert s[i + 1] as int == Utf8(c)[1];
    }
    if c >= 0x800 {
      assert s[i + 2] as int == Utf8(c)[2];
    }
  }

  lemma WhiteThere(s: Text, i: nat) returns (c: nat)
    requires i <= |s| && SpaceWidth(s, i) > 0
    ensures c < 0x1_0000 && White(c) && BytesAt(s, i, Utf8(c)) && SpaceWidth(s, i) == |Utf8(c)|
  {
    if SpaceWidth(s, i) == 1 {
      c := s[i] as int;
    } else if SpaceWidth(s, i) == 2 {
      c := s[i + 1] as int;
    } else {
      var a, b, d := s[i] as int, s[i + 1] as int, s[i + 2] as int;
      c := if a == 0xE1 then 0x1680
           else if a == 0xE3 then 0x3000
           else if b == 0x81 then 0x205F
           else 0x2000 + (d - 0x80);
    }
  }

  /** Where the whitespace from `i` on ends. */
  function SkipSpaces(s: Text, i: nat): (j: nat)
    requires i <= |s|
    ensures i <= j <= |s|
    decreases |s| - i
  {
    if SpaceWidth(s, i) == 0 then i else SkipSpaces(s, i + SpaceWidth(s, i))
  }

  /** Where the word characters from `i` on end. */
  function WordEnd(s: Text, i: nat): (j: nat)
    requires i <= |s|
    ensures i <= j <= |s|
    decreases |s| - i
  {
    if i == |s| || !IsWord(s[i]) then i else WordEnd(s, i + 1)
  }

  lemma {:induction false} WordEndIs(s: Text, i: nat)
    requires i <= |s|
    ensures forall k | i <= k < WordEnd(s, i) :: IsWord(s[k])
    ensures WordEnd(s, i) < |s| ==> !IsWord(s[WordEnd(s, i)])
    decreases |s| - i
  {
    if i < |s| && IsWord(s[i]) {
      WordEndIs(s, i + 1);
    }
  }

  datatype Next = Nothing | At(lead: nat, length: nat)

  /** The next token: how far it is, and how long. */
  function NextToken(m: Text): (n: Next)
    ensures n.At? ==> |NKEY| <= n.lead && n.lead + n.length <= |m|
  {
    match Find(m, NKEY)
    case None => Nothing
    case Some(i) =>
      var lead := SkipSpaces(m, i + |NKEY|);
      At(lead, WordEnd(m, lead) - lead)
  }

  /**
    A scanner says where a text's next token is. It is a parameter of what walks, parses and splices a text,
    because those results need only that tokens are maximal words found left to right, and not how one is
    found: they hold for every scanner, and for this program's where `Scans` is asked for.
  */
  type Scanner = next: Text -> Next | forall m :: Fits(next(m), m) witness (m: Text) => Nothing

  predicate Fits(n: Next, m: Text) {
    n.At? ==> |NKEY| <= n.lead && n.lead + n.length <= |m|
  }

  /** The scanner of this program, where its definition does not matter. */
  ghost predicate Scans(next: Scanner) {
    forall m {:trigger NextToken(m)} :: next(m) == NextToken(m)
  }

  /** One `nkey: TOKEN` occurrence, as offsets. */
  datatype Token = Token(start: nat, end: nat)

  /** Where the scan goes on after a token: past it, or one byte on if it is empty and that is a boundary. */
  function Resume(m: Text, token: Token): Option<nat>
    requires token.start <= token.end <= |m|
    ensures Resume(m, token).Some? ==> token.start < Resume(m, token).value <= |m|
  {
    if token.start < token.end then Some(token.end)
    else if token.start + 1 > |m| then None
    else if token.start + 1 < |m| && 0x80 <= m[token.start + 1] as int < 0xC0 then None
    else Some(token.start + 1)
  }

  function TokensFrom(next: Scanner, m: Text, from: nat): seq<Token>
    requires from <= |m|
    decreases |m| - from
  {
    match next(m[from..])
    case Nothing => []
    case At(lead, length) =>
      var token := Token(from + lead, from + lead + length);
      [token] + (if Resume(m, token).Some? then TokensFrom(next, m, Resume(m, token).value) else [])
  }

  /** The token at or after `from`. */
  method NextFrom(ghost next: Scanner, masked: Text, from: nat) returns (token: Option<Token>)
    requires Scans(next)
    requires from <= |masked|
    ensures token == (match next(masked[from..])
      case Nothing => None
      case At(lead, length) => Some(Token(from + lead, from + lead + length)))
    ensures token.Some? ==> from < token.value.start <= token.value.end <= |masked|
  {
    var rest := masked[from..];
    assert next(rest) == NextToken(rest);
    var found := Find(rest, NKEY);
    if found.None? {
      return None;
    }
    var start := SkipSpaces(rest, found.value + |NKEY|);
    token := Some(Token(from + start, from + WordEnd(rest, start)));
  }

  /** The tokens after one that has been found. */
  function After(next: Scanner, m: Text, token: Token): seq<Token>
    requires token.start <= token.end <= |m|
  {
    if Resume(m, token).Some? then TokensFrom(next, m, Resume(m, token).value) else []
  }

  lemma TokensFromIs(next: Scanner, m: Text, from: nat, token: Option<Token>)
    requires from <= |m|
    requires token == (match next(m[from..])
      case Nothing => None
      case At(lead, length) => Some(Token(from + lead, from + lead + length)))
    ensures token.None? ==> TokensFrom(next, m, from) == []
    ensures token.Some? ==>
      token.value.start <= token.value.end <= |m| && TokensFrom(next, m, from) == [token.value] + After(next, m, token.value)
  {
  }

  method FindTokens(ghost next: Scanner, masked: Text) returns (tokens: seq<Token>)
    requires Scans(next)
    ensures tokens == TokensFrom(next, masked, 0)
  {
    tokens := [];
    var from := 0;
    ghost var rest := TokensFrom(next, masked, 0);
    while true
      invariant 0 <= from <= |masked| && rest == TokensFrom(next, masked, from)
      invariant TokensFrom(next, masked, 0) == tokens + rest
      decreases |masked| - from
    {
      var token := NextFrom(next, masked, from);
      TokensFromIs(next, masked, from, token);
      if token.None? {
        return;
      }
      rest := After(next, masked, token.value);
      assert tokens + ([token.value] + rest) == (tokens + [token.value]) + rest;
      tokens := tokens + [token.value];
      var resume := Resume(masked, token.value);
      if resume.None? {
        return;
      }
      from := resume.value;
    }
  }
}
