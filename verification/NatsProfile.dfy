/**
  Parsing the identity stanzas of the NATS ACL and rendering a startable copy of it
  (crates/nats-profile/src/lib.rs).
*/
module NatsProfile {
  import opened Common
  import opened NatsText
  import opened NatsSplice

  const PLACEHOLDER_PREFIX: Text := "UREPLACE_ME_WITH_THE_PUBLIC_NKEY_OF_RATATOSKR_"

  /** The part of the prefix that must not survive rendering. */
  const REMAINDER: Text := "UREPLACE_ME"

  /** The permission lists of a stanza. */
  datatype Lists = Lists(publishAllow: seq<Text>, publishDeny: seq<Text>, subscribeAllow: seq<Text>)

  datatype Identity = Identity(name: Text, placeholder: Text, lists: Lists)

  datatype Part = PublishBlock | SubscribeBlock | PublishAllow | PublishDeny | SubscribeAllow

  datatype Error =
    | NotAPlaceholder(token: Text)
    | DuplicatePlaceholder(token: Text)
    | Unbalanced(part: Part, name: Text)
    | PlaceholderRemains(token: Text)
    | KeyFailed

  // ---------------------------------------------------------------------------------------------
  // Placeholders
  // ---------------------------------------------------------------------------------------------

  predicate IsName(s: Text) {
    s != [] && forall i | 0 <= i < |s| :: 'A' <= s[i] <= 'Z' || s[i] == '_'
  }

  predicate IsPadding(s: Text) {
    s != [] && forall i | 0 <= i < |s| :: s[i] == 'X'
  }

  function LastUnderscore(s: Text): (at: Option<nat>)
    ensures at.Some? ==> at.value < |s| && s[at.value] == '_'
  {
    if s == [] then None
    else if s[|s| - 1] == '_' then Some(|s| - 1)
    else LastUnderscore(s[..|s| - 1])
  }

  /** The name in `<prefix><NAME>_<X+>`, split at the last underscore. */
  function PlaceholderName(prefix: Text, token: Text): (name: Option<Text>)
    ensures name.Some? ==> token != []
  {
    if !(prefix <= token) then None
    else
      var rest := token[|prefix|..];
      match LastUnderscore(rest)
      case None => None
      case Some(i) => if IsName(rest[..i]) && IsPadding(rest[i + 1..]) then Some(rest[..i]) else None
  }

  /** How a token is named; what is named is not empty. */
  type Namer = naming: Text -> Option<Text> | forall word :: naming(word).Some? ==> word != []
    witness (word: Text) => None

  function DeployedName(token: Text): (name: Option<Text>)
    ensures name.Some? ==> token != []
  {
    PlaceholderName(PLACEHOLDER_PREFIX, token)
  }

  lemma {:induction false} LastUnderscoreBefore(name: Text, padding: Text)
    requires IsPadding(padding) || padding == []
    ensures LastUnderscore(name + "_" + padding) == Some(|name|)
    decreases |padding|
  {
    var s := name + "_" + padding;
    if padding == [] {
      assert s[|s| - 1] == '_';
    } else {
      assert s[|s| - 1] == padding[|padding| - 1] == 'X';
      assert s[..|s| - 1] == name + "_" + padding[..|padding| - 1];
      LastUnderscoreBefore(name, padding[..|padding| - 1]);
    }
  }

  /** A name is upper case letters and underscores, padding is `X`, and neither is empty. */
  lemma NameBytes(s: Text)
    ensures IsName(s) <==> |s| > 0 && forall i | 0 <= i < |s| :: 0x41 <= s[i] as int <= 0x5A || s[i] as int == 0x5F
    ensures IsPadding(s) <==> |s| > 0 && s == seq(|s|, _ => 'X')
  {
  }

  /** A token names an identity exactly when it is the prefix, the name, an underscore and padding. */
  lemma PlaceholderGrammar(prefix: Text, token: Text, name: Text)
    ensures PlaceholderName(prefix, token) == Some(name) <==>
      IsName(name) && exists padding :: IsPadding(padding) && token == prefix + (name + "_" + padding)
  {
    if PlaceholderName(prefix, token) == Some(name) {
      var rest := token[|prefix|..];
      var padding := rest[|name| + 1..];
      assert rest == name + "_" + padding;
      assert token == prefix + (name + "_" + padding);
    }
    if IsName(name) && exists padding :: IsPadding(padding) && token == prefix + (name + "_" + padding) {
      var padding :| IsPadding(padding) && token == prefix + (name + "_" + padding);
      var rest := token[|prefix|..];
      assert rest == name + "_" + padding;
      LastUnderscoreBefore(name, padding);
      assert rest[..|name|] == name && rest[|name| + 1..] == padding;
    }
  }

  // ---------------------------------------------------------------------------------------------
  // Permission blocks
  // ---------------------------------------------------------------------------------------------

  /** The offset of the brace that closes `depth` open ones, braces in strings aside. */
  function Close(s: Text, depth: nat, inString: bool): (at: Option<nat>)
    requires depth >= 1
    ensures at.Some? ==> at.value < |s| && s[at.value] == '}'
  {
    if s == [] then None
    else if !inString && s[0] == '}' && depth == 1 then Some(0)
    else
      match Close(s[1..], if inString then depth else Deeper(s[0], depth), if s[0] == '"' then !inString else inString)
      case None => None
      case Some(i) => Some(i + 1)
  }

  function Deeper(c: char, depth: nat): (d: nat)
    requires depth >= 1
    ensures !(c == '}' && depth == 1) ==> d >= 1
  {
    if c == '{' then depth + 1 else if c == '}' then depth - 1 else depth
  }

  /** The text has its braces matched: none closes what it did not open, and none stays open. */
  function Balance(s: Text, depth: nat, inString: bool): bool {
    if s == [] then depth == 0 && !inString
    else if s[0] == '"' then Balance(s[1..], depth, !inString)
    else if inString then Balance(s[1..], depth, inString)
    else if s[0] == '{' then Balance(s[1..], depth + 1, false)
    else if s[0] == '}' then depth > 0 && Balance(s[1..], depth - 1, false)
    else Balance(s[1..], depth, false)
  }

  /** What a closing brace closes is balanced. */
  lemma {:induction false} ClosedIsBalanced(s: Text, depth: nat, inString: bool)
    requires depth >= 1 && Close(s, depth, inString).Some?
    ensures Balance(s[..Close(s, depth, inString).value], depth - 1, inString)
    decreases |s|
  {
    var at := Close(s, depth, inString).value;
    if at > 0 {
      assert s[..at][1..] == s[1..][..at - 1];
      ClosedIsBalanced(s[1..], if inString then depth else Deeper(s[0], depth),
                       if s[0] == '"' then !inString else inString);
    }
  }

  /** And balanced text before a closing brace is exactly what that brace closes. */
  lemma {:induction false} BalancedIsClosed(inner: Text, tail: Text, depth: nat, inString: bool)
    requires Balance(inner, depth, inString)
    ensures Close(inner + "}" + tail, depth + 1, inString) == Some(|inner|)
    decreases |inner|
  {
    var s := inner + "}" + tail;
    if inner == [] {
      assert s[0] == '}';
    } else {
      assert s[1..] == inner[1..] + "}" + tail;
      assert s[0] == inner[0];
      var next := if inString then depth + 1 else Deeper(inner[0], depth + 1);
      BalancedIsClosed(inner[1..], tail, next - 1, if inner[0] == '"' then !inString else inString);
    }
  }

  function Shift(at: Option<nat>, n: nat): Option<nat> {
    if at.Some? then Some(at.value + n) else None
  }

  /** The text inside the first `{ ... }` of a text. */
  function OpenedIn(rest: Text, part: Part, name: Text): Result<Option<Text>, Error> {
    match Find(rest, "{")
    case None => Err(Unbalanced(part, name))
    case Some(open) =>
      match Close(rest[open + 1..], 1, false)
      case None => Err(Unbalanced(part, name))
      case Some(end) => Ok(Some(rest[open + 1..open + 1 + end]))
  }

  /** The text inside the first `{ ... }` that follows `key:`. */
  function BlockOf(text: Text, key: Text, part: Part, name: Text): Result<Option<Text>, Error> {
    match Find(text, key + ":")
    case None => Ok(None)
    case Some(at) => OpenedIn(text[at + |key| + 1..], part, name)
  }

  /** One character of the scan, `depth` braces open. */
  lemma CloseStep(rest: Text, offset: nat, depth: nat, inString: bool)
    requires offset < |rest| && depth >= 1 && !(!inString && rest[offset] == '}' && depth == 1)
    ensures Shift(Close(rest[offset..], depth, inString), offset)
      == Shift(Close(rest[offset + 1..], if inString then depth else Deeper(rest[offset], depth),
                     if rest[offset] == '"' then !inString else inString), offset + 1)
  {
    assert rest[offset..][1..] == rest[offset + 1..];
  }

  lemma CloseHere(rest: Text, offset: nat)
    requires offset < |rest| && rest[offset] == '}'
    ensures Shift(Close(rest[offset..], 1, false), offset) == Some(offset)
  {
  }

  /** The loop of the source from the opening brace on. The depth never goes below zero. */
  method FindClose(rest: Text, open: nat) returns (at: Option<nat>)
    requires open < |rest| && rest[open] == '{'
    ensures at == Shift(Close(rest[open + 1..], 1, false), open + 1)
  {
    var depth: nat := 0;
    var inString := false;
    var offset := open;
    ghost var goal := Shift(Close(rest[open + 1..], 1, false), open + 1);
    while offset < |rest|
      invariant open <= offset <= |rest|
      invariant offset == open ==> depth == 0 && !inString
      invariant offset > open ==> depth >= 1 && Shift(Close(rest[offset..], depth, inString), offset) == goal
    {
      if offset > open {
        if depth == 1 && rest[offset] == '}' && !inString {
          CloseHere(rest, offset);
        } else {
          CloseStep(rest, offset, depth, inString);
        }
      }
      var c := rest[offset];
      if c == '"' {
        inString := !inString;
      } else if c == '{' && !inString {
        depth := depth + 1;
      } else if c == '}' && !inString {
        depth := depth - 1;
        if depth == 0 {
          return Some(offset);
        }
      }
      offset := offset + 1;
    }
    assert rest[offset..] == [];
    at := None;
  }

  lemma FoundAt(s: Text, i: nat)
    requires Find(s, "{") == Some(i)
    ensures i < |s| && s[i] == '{'
  {
    FindIsFirst(s, "{");
    assert s[i..i + 1][0] == '{';
  }

  /** The block that opens in `rest`. */
  method BlockIn(rest: Text, part: Part, name: Text) returns (r: Result<Option<Text>, Error>)
    ensures r == OpenedIn(rest, part, name)
  {
    var open := Find(rest, "{");
    if open.None? {
      return Err(Unbalanced(part, name));
    }
    FoundAt(rest, open.value);
    var end := FindClose(rest, open.value);
    if end.None? {
      return Err(Unbalanced(part, name));
    }
    r := Ok(Some(rest[open.value + 1..end.value]));
  }

  method Block(text: Text, key: Text, part: Part, name: Text) returns (r: Result<Option<Text>, Error>)
    ensures r == BlockOf(text, key, part, name)
  {
    var at := Find(text, key + ":");
    if at.None? {
      return Ok(None);
    }
    r := BlockIn(text[at.value + |key| + 1..], part, name);
  }

  lemma OpenedIsBalanced(rest: Text, part: Part, name: Text)
    ensures var r := OpenedIn(rest, part, name);
      r.Ok? && r.value.Some? ==> Balance(r.value.value, 0, false)
  {
    var open := Find(rest, "{");
    if open.Some? && Close(rest[open.value + 1..], 1, false).Some? {
      var inside := rest[open.value + 1..];
      var end := Close(inside, 1, false).value;
      ClosedIsBalanced(inside, 1, false);
      assert rest[open.value + 1..open.value + 1 + end] == inside[..end];
    }
  }

  /** A block that is found is balanced. */
  lemma BlocksAreBalanced(text: Text, key: Text, part: Part, name: Text)
    ensures var r := BlockOf(text, key, part, name);
      r.Ok? && r.value.Some? ==> Balance(r.value.value, 0, false)
  {
    var at := Find(text, key + ":");
    if at.Some? {
      OpenedIsBalanced(text[at.value + |key| + 1..], part, name);
    }
  }

  // ---------------------------------------------------------------------------------------------
  // Lists
  // ---------------------------------------------------------------------------------------------

  /** Every second piece between quotes: what was inside them. */
  function Quoted(s: Text, inside: bool, piece: Text): seq<Text> {
    if s == [] then (if inside then [piece] else [])
    else if s[0] == '"' then (if inside then [piece] + Quoted(s[1..], false, []) else Quoted(s[1..], true, []))
    else Quoted(s[1..], inside, if inside then piece + [s[0]] else piece)
  }

  /** The quoted strings between the first brackets of a text. */
  function ItemsIn(rest: Text, part: Part, name: Text): Result<seq<Text>, Error> {
    match Find(rest, "[")
    case None => Err(Unbalanced(part, name))
    case Some(open) =>
      match Find(rest[open + 1..], "]")
      case None => Err(Unbalanced(part, name))
      case Some(close) => Ok(Quoted(rest[open + 1..][..close], false, []))
  }

  /** The quoted strings of `key: [ ... ]`. */
  function ListOf(text: Text, key: Text, part: Part, name: Text): Result<seq<Text>, Error> {
    match Find(text, key + ":")
    case None => Ok([])
    case Some(at) => ItemsIn(text[at + |key| + 1..], part, name)
  }

  /** A list as an operator writes it. */
  function Written(items: seq<Text>): Text {
    if items == [] then [] else "\"" + items[0] + "\"," + Written(items[1..])
  }

  predicate Lacks(s: Text, c: char) {
    forall i | 0 <= i < |s| :: s[i] != c
  }

  predicate AllLack(items: seq<Text>, c: char) {
    items == [] || (Lacks(items[0], c) && AllLack(items[1..], c))
  }

  /** What `list` reads of written items: it stops at the first closing bracket, inside quotes or not. */
  function CutItems(items: seq<Text>): seq<Text> {
    if items == [] then []
    else
      match Find(items[0], "]")
      case Some(at) => [items[0][..at]]
      case None => [items[0]] + CutItems(items[1..])
  }

  /** An item that ends at its closing quote, and one that is cut before it. */
  lemma {:induction false} QuotedItem(item: Text, tail: Text, piece: Text)
    requires Lacks(item, '"')
    ensures Quoted(item + "\"" + tail, true, piece) == [piece + item] + Quoted(tail, false, [])
    ensures Quoted(item, true, piece) == [piece + item]
    decreases |item|
  {
    var s := item + "\"" + tail;
    if item == [] {
      assert s[0] == '"' && s[1..] == tail;
      assert piece + item == piece;
    } else {
      assert s[0] == item[0] && s[1..] == item[1..] + "\"" + tail;
      QuotedItem(item[1..], tail, piece + [item[0]]);
      assert piece + [item[0]] + item[1..] == piece + item;
    }
  }

  /** A character is found where it is found in what follows a text without it. */
  lemma {:induction false} FindBeyond(a: Text, b: Text, c: char)
    requires Lacks(a, c)
    ensures Find(a + b, [c]) == Shift(Find(b, [c]), |a|)
    decreases |a|
  {
    if a == [] {
      assert a + b == b;
    } else {
      assert (a + b)[..1] == [a[0]] && (a + b)[1..] == a[1..] + b;
      FindBeyond(a[1..], b, c);
    }
  }

  lemma {:induction false} FoundOrLacking(s: Text, c: char)
    ensures match Find(s, [c])
      case None => Lacks(s, c)
      case Some(at) => Lacks(s[..at], c) && s == s[..at] + [c] + s[at + 1..]
    decreases |s|
  {
    if s != [] && s[..1] != [c] {
      FoundOrLacking(s[1..], c);
      assert s == [s[0]] + s[1..];
    }
  }

  lemma ReadWholeItem(item: Text, after: Text)
    requires Lacks(item, '"') && Lacks(item, ']') && Find(after, "]").Some?
    ensures var s := "\"" + item + "\"," + after;
      && Find(s, "]").Some?
      && Quoted(s[..Find(s, "]").value], false, [])
        == [item] + Quoted(after[..Find(after, "]").value], false, [])
  {
    var s := "\"" + item + "\"," + after;
    var inside := after[..Find(after, "]").value];
    FindBeyond("\"" + item + "\",", after, ']');
    var cut := s[..Find(s, "]").value];
    assert cut == "\"" + (item + "\"" + ("," + inside));
    assert cut[0] == '"' && cut[1..] == item + "\"" + ("," + inside);
    QuotedItem(item, "," + inside, []);
    assert [] + item == item;
    assert ("," + inside)[1..] == inside;
  }

  lemma ReadCutItem(item: Text, at: nat, after: Text)
    requires Lacks(item, '"') && Find(item, "]") == Some(at)
    ensures var s := "\"" + item + "\"," + after;
      Find(s, "]").Some? && Quoted(s[..Find(s, "]").value], false, []) == [item[..at]]
  {
    var s := "\"" + item + "\"," + after;
    var kept := item[..at];
    FoundOrLacking(item, ']');
    var beyond := "]" + (item[at + 1..] + "\"," + after);
    assert s == "\"" + kept + beyond;
    FindBeyond("\"" + kept, beyond, ']');
    var cut := s[..Find(s, "]").value];
    assert cut == "\"" + kept;
    assert cut[0] == '"' && cut[1..] == kept;
    QuotedItem(kept, [], []);
    assert [] + kept == kept;
  }

  lemma {:induction false} ReadWritten(items: seq<Text>, tail: Text)
    requires AllLack(items, '"')
    ensures var s := Written(items) + "]" + tail;
      Find(s, "]").Some? && Quoted(s[..Find(s, "]").value], false, []) == CutItems(items)
    decreases |items|
  {
    var s := Written(items) + "]" + tail;
    if items == [] {
      assert s[..1] == "]";
    } else {
      var after := Written(items[1..]) + "]" + tail;
      assert s == "\"" + items[0] + "\"," + after;
      ReadWritten(items[1..], tail);
      match Find(items[0], "]") {
        case Some(at) => ReadCutItem(items[0], at, after);
        case None =>
          FoundOrLacking(items[0], ']');
          ReadWholeItem(items[0], after);
      }
    }
  }

  lemma {:induction false} CutNothing(items: seq<Text>)
    ensures CutItems(items) == items <==> AllLack(items, ']')
    decreases |items|
  {
    if items != [] {
      CutNothing(items[1..]);
      FoundOrLacking(items[0], ']');
      match Find(items[0], "]") {
        case Some(at) =>
          assert items[0][at] == ']';
          assert |CutItems(items)[0]| == at < |items[0]|;
        case None =>
          assert items == [items[0]] + items[1..];
          assert CutItems(items)[1..] == CutItems(items[1..]);
      }
    }
  }

  /** The line of a stanza that holds a written list, and whatever follows it. */
  function ListLine(key: Text, items: seq<Text>, tail: Text): Text {
    key + ": [" + Written(items) + "]" + tail
  }

  lemma WrittenIsRead(items: seq<Text>, tail: Text, part: Part, name: Text)
    requires AllLack(items, '"')
    ensures ItemsIn(" [" + (Written(items) + "]" + tail), part, name) == Ok(CutItems(items))
  {
    var s := Written(items) + "]" + tail;
    var rest := " [" + s;
    assert rest[..1][0] == ' ' && rest[1..][..1] == "[";
    assert Find(rest[1..], "[") == Some(0);
    assert rest[1 + 1..] == s;
    ReadWritten(items, tail);
  }

  lemma FoundInFront(pattern: Text, rest: Text)
    ensures Find(pattern + rest, pattern) == Some(0)
    ensures (pattern + rest)[|pattern|..] == rest
  {
    assert (pattern + rest)[..|pattern|] == pattern;
  }

  lemma ListLineIsRead(key: Text, items: seq<Text>, tail: Text, part: Part, name: Text)
    requires AllLack(items, '"')
    ensures ListOf(ListLine(key, items, tail), key, part, name) == Ok(CutItems(items))
  {
    var rest := " [" + (Written(items) + "]" + tail);
    assert ListLine(key, items, tail) == key + ":" + rest;
    FoundInFront(key + ":", rest);
    WrittenIsRead(items, tail, part, name);
  }

  /**
    Reading a written list gives its items back, in order, exactly when no item holds a closing bracket:
    the search for the end of the list does not look at quotes.
  */
  lemma ListRoundTrip(key: Text, items: seq<Text>, tail: Text, part: Part, name: Text)
    requires AllLack(items, '"')
    ensures ListOf(ListLine(key, items, tail), key, part, name) == Ok(items) <==> AllLack(items, ']')
    ensures ListOf(ListLine(key, items, tail), key, part, name) == Ok(CutItems(items))
  {
    ListLineIsRead(key, items, tail, part, name);
    CutNothing(items);
  }

  /** `allow: ["a]b",]` is read as the one item `a`. */
  lemma BracketCutsAnItem(part: Part, name: Text)
    ensures ListOf("allow: [\"a]b\",]", "allow", part, name) == Ok(["a"])
  {
    var item := "a]b";
    assert Written([item]) == "\"a]b\"," by {
      assert Written([]) == [];
    }
    assert ListLine("allow", [item], []) == "allow: [\"a]b\",]";
    assert item[1..][..1] == "]";
    assert item[..1] == "a";
    assert CutItems([item]) == ["a"];
    ListLineIsRead("allow", [item], [], part, name);
  }
}
