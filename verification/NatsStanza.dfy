/**
  What is read of a written stanza of the NATS ACL (crates/nats-profile/src/lib.rs, `parse`): each
  list of each block ends up in its own place.
*/
module NatsStanza {
  import opened Common
  import opened NatsText
  import opened NatsProfile
  import opened NatsRender

  /** Subjects as an operator writes them: nothing that the file format gives a meaning to. */
  predicate Unmarked(items: seq<Text>) {
    AllLack(items, '"') && AllLack(items, ']') && AllLack(items, ':')
  }

  function PublishInside(l: Lists): Text {
    ListLine("allow", l.publishAllow, " ") + ListLine("deny", l.publishDeny, " ")
  }

  function BlockText(key: Text, inside: Text): Text {
    key + ": {" + inside + "}"
  }

  /** A stanza with both blocks, and whatever follows it. */
  function WrittenStanza(l: Lists, tail: Text): Text {
    " " + BlockText("publish", PublishInside(l)) + BlockText("subscribe", ListLine("allow", l.subscribeAllow, " ")) + tail
  }

  // ---------------------------------------------------------------------------------------------
  // Keys
  // ---------------------------------------------------------------------------------------------

  /** No colon of the text follows these two characters. */
  predicate NoKeyEnds(s: Text, c: char, d: char) {
    forall i | 2 <= i < |s| && s[i] == ':' :: !(s[i - 2] == c && s[i - 1] == d)
  }

  /** The text has keys, and none of them ends as this one does. */
  predicate Apart(s: Text, key: Text) {
    |key| >= 2 && Lacks(key, ':') && NoKeyEnds(s, key[|key| - 2], key[|key| - 1])
  }

  lemma DiffersAt(s: Text, pattern: Text, j: nat, k: nat)
    requires k < |pattern| && j + k < |s| && s[j + k] != pattern[k]
    ensures !OccursAt(s, pattern, j)
  {
    if j + |pattern| <= |s| {
      assert s[j..j + |pattern|][k] == s[j + k];
    }
  }

  lemma NoEarlierKey(a: Text, key: Text, b: Text, j: nat)
    requires Apart(a, key) && j < |a|
    ensures !OccursAt(a + (key + ":" + b), key + ":", j)
  {
    var s, pattern := a + (key + ":" + b), key + ":";
    var c := j + |key|;
    if c >= |a| {
      assert s[c] == key[c - |a|] != ':';
      DiffersAt(s, pattern, j, |key|);
    } else if a[c] != ':' {
      assert s[c] == a[c];
      DiffersAt(s, pattern, j, |key|);
    } else if a[c - 1] != key[|key| - 1] {
      assert s[c - 1] == a[c - 1];
      DiffersAt(s, pattern, j, |key| - 1);
    } else {
      assert s[c - 2] == a[c - 2] != key[|key| - 2];
      DiffersAt(s, pattern, j, |key| - 2);
    }
  }

  /** A key is nowhere in a text whose keys all end otherwise. */
  lemma KeyNowhere(a: Text, key: Text)
    requires Apart(a, key)
    ensures Find(a, key + ":").None?
  {
    var pattern := key + ":";
    forall j: nat ensures !OccursAt(a, pattern, j) {
      var c := j + |key|;
      if c < |a| {
        if a[c] != ':' {
          DiffersAt(a, pattern, j, |key|);
        } else if a[c - 1] != key[|key| - 1] {
          DiffersAt(a, pattern, j, |key| - 1);
        } else {
          DiffersAt(a, pattern, j, |key| - 2);
        }
      }
    }
    FindIsFirst(a, pattern);
  }

  lemma KeyRest(a: Text, key: Text, b: Text)
    ensures var s, pattern := a + (key + ":" + b), key + ":";
      && |a| + |pattern| <= |s| && s[|a|..|a| + |pattern|] == pattern && s[|a| + |key| + 1..] == b
  {
  }

  /** A key is found behind any text whose own keys end in another character. */
  lemma KeyBeyond(a: Text, key: Text, b: Text)
    requires Apart(a, key)
    ensures Find(a + (key + ":" + b), key + ":") == Some(|a|)
  {
    KeyRest(a, key, b);
    forall j: nat | j < |a| ensures !OccursAt(a + (key + ":" + b), key + ":", j) {
      NoEarlierKey(a, key, b, j);
    }
    FindIs(a + (key + ":" + b), key + ":", |a|);
  }

  lemma KeysOfBoth(a: Text, b: Text, c: char, d: char)
    requires NoKeyEnds(a, c, d) && NoKeyEnds(b, c, d) && forall i | 0 <= i < 2 && i < |b| :: b[i] != ':'
    ensures NoKeyEnds(a + b, c, d)
  {
    var s := a + b;
    forall i | 2 <= i < |s| && s[i] == ':' ensures !(s[i - 2] == c && s[i - 1] == d) {
      if i >= |a| {
        assert s[i] == b[i - |a|] && s[i - 1] == b[i - |a| - 1] && s[i - 2] == b[i - |a| - 2];
      }
    }
  }

  lemma {:induction false} WrittenLacksColons(items: seq<Text>)
    requires AllLack(items, ':')
    ensures Lacks(Written(items), ':')
  {
    if items != [] {
      WrittenLacksColons(items[1..]);
    }
  }

  /** The one key of a line ends in its own last two characters. */
  lemma LineKeys(key: Text, items: seq<Text>, c: char, d: char)
    requires |key| >= 2 && Lacks(key, ':') && AllLack(items, ':')
    requires key[|key| - 2] != c || key[|key| - 1] != d
    ensures NoKeyEnds(ListLine(key, items, " "), c, d)
    ensures forall i | 0 <= i < 2 :: i < |ListLine(key, items, " ")| && ListLine(key, items, " ")[i] != ':'
  {
    WrittenLacksColons(items);
    var rest := " [" + Written(items) + "]" + " ";
    assert ListLine(key, items, " ") == key + ":" + rest;
    assert Lacks(rest, ':');
  }

  /** A block has its own key and those of its lines. */
  lemma BlockKeys(key: Text, inside: Text, c: char, d: char)
    requires |key| >= 2 && Lacks(key, ':') && (key[|key| - 2] != c || key[|key| - 1] != d)
    requires NoKeyEnds(inside, c, d) && forall i | 0 <= i < 2 && i < |inside| :: inside[i] != ':'
    ensures NoKeyEnds(BlockText(key, inside), c, d)
    ensures forall i | 0 <= i < 2 :: i < |BlockText(key, inside)| && BlockText(key, inside)[i] != ':'
  {
    var opening := key + ": {";
    KeysOfBoth(opening, inside, c, d);
    KeysOfBoth(opening + inside, "}", c, d);
    assert BlockText(key, inside) == opening + inside + "}";
  }

  // ---------------------------------------------------------------------------------------------
  // Blocks
  // ---------------------------------------------------------------------------------------------

  /** Text without quotes and braces changes no balance. */
  lemma {:induction false} NeutralBalance(a: Text, b: Text, depth: nat)
    requires Lacks(a, '"') && Lacks(a, '{') && Lacks(a, '}')
    ensures Balance(a + b, depth, false) == Balance(b, depth, false)
    decreases |a|
  {
    if a == [] {
      assert a + b == b;
    } else {
      assert (a + b)[0] == a[0] && (a + b)[1..] == a[1..] + b;
      NeutralBalance(a[1..], b, depth);
    }
  }

  lemma {:induction false} QuotedBalance(item: Text, b: Text, depth: nat)
    requires Lacks(item, '"')
    ensures Balance(item + "\"" + b, depth, true) == Balance(b, depth, false)
    decreases |item|
  {
    var s := item + "\"" + b;
    if item == [] {
      assert s[0] == '"' && s[1..] == b;
    } else {
      assert s[0] == item[0] && s[1..] == item[1..] + "\"" + b;
      QuotedBalance(item[1..], b, depth);
    }
  }

  /** Neither do quoted items, whatever braces they hold. */
  lemma {:induction false} WrittenBalance(items: seq<Text>, b: Text, depth: nat)
    requires AllLack(items, '"')
    ensures Balance(Written(items) + b, depth, false) == Balance(b, depth, false)
    decreases |items|
  {
    if items == [] {
      assert Written(items) + b == b;
    } else {
      var rest := Written(items[1..]) + b;
      var s := Written(items) + b;
      assert s == "\"" + (items[0] + "\"" + ("," + rest));
      assert s[0] == '"' && s[1..] == items[0] + "\"" + ("," + rest);
      QuotedBalance(items[0], "," + rest, depth);
      NeutralBalance(",", rest, depth);
      WrittenBalance(items[1..], b, depth);
    }
  }

  lemma LineBalance(key: Text, items: seq<Text>, b: Text, depth: nat)
    requires AllLack(items, '"') && Lacks(key, '"') && Lacks(key, '{') && Lacks(key, '}')
    ensures Balance(ListLine(key, items, " ") + b, depth, false) == Balance(b, depth, false)
  {
    var opening := key + ": [";
    assert ListLine(key, items, " ") + b == opening + (Written(items) + ("] " + b));
    NeutralBalance(opening, Written(items) + ("] " + b), depth);
    WrittenBalance(items, "] " + b, depth);
    NeutralBalance("] ", b, depth);
  }

  lemma BlockAt(text: Text, key: Text, at: nat, rest: Text, part: Part, name: Text)
    requires Find(text, key + ":") == Some(at) && text[at + |key| + 1..] == rest
    ensures BlockOf(text, key, part, name) == OpenedIn(rest, part, name)
  {
  }

  lemma BlockParts(key: Text, inside: Text, b: Text)
    ensures BlockText(key, inside) + b == key + ":" + (" {" + (inside + "}" + b))
  {
  }

  lemma LineParts(key: Text, items: seq<Text>, b: Text)
    ensures ListLine(key, items, b) == key + ":" + (" [" + (Written(items) + "]" + b))
  {
  }

  lemma LineTail(key: Text, items: seq<Text>, b: Text, c: Text)
    ensures ListLine(key, items, b) + c == ListLine(key, items, b + c)
  {
  }

  /** A block behind text with other keys is read whole. */
  lemma BlockIsRead(a: Text, key: Text, inside: Text, b: Text, part: Part, name: Text)
    requires Apart(a, key) && Balance(inside, 0, false)
    ensures BlockOf(a + (BlockText(key, inside) + b), key, part, name) == Ok(Some(inside))
  {
    var rest := " {" + (inside + "}" + b);
    BlockParts(key, inside, b);
    KeyBeyond(a, key, rest);
    KeyRest(a, key, rest);
    BlockAt(a + (key + ":" + rest), key, |a|, rest, part, name);
    OpenedIsInside(inside, b, part, name);
  }

  lemma OpenedIsInside(inside: Text, b: Text, part: Part, name: Text)
    requires Balance(inside, 0, false)
    ensures OpenedIn(" {" + (inside + "}" + b), part, name) == Ok(Some(inside))
  {
    var rest := " {" + (inside + "}" + b);
    assert rest[..1][0] == ' ' && rest[1..][..1] == "{";
    assert Find(rest[1..], "{") == Some(0);
    assert rest[1 + 1..] == inside + "}" + b;
    BalancedIsClosed(inside, b, 0, false);
    assert rest[2..2 + |inside|] == inside;
  }

  // ---------------------------------------------------------------------------------------------
  // Lists
  // ---------------------------------------------------------------------------------------------

  lemma ListAt(text: Text, key: Text, at: nat, rest: Text, part: Part, name: Text)
    requires Find(text, key + ":") == Some(at) && text[at + |key| + 1..] == rest
    ensures ListOf(text, key, part, name) == ItemsIn(rest, part, name)
  {
  }

  /** A list behind text with other keys is read whole. */
  lemma ListIsRead(a: Text, key: Text, items: seq<Text>, b: Text, part: Part, name: Text)
    requires Apart(a, key) && Unmarked(items)
    ensures ListOf(a + ListLine(key, items, b), key, part, name) == Ok(items)
  {
    var rest := " [" + (Written(items) + "]" + b);
    LineParts(key, items, b);
    KeyBeyond(a, key, rest);
    KeyRest(a, key, rest);
    ListAt(a + (key + ":" + rest), key, |a|, rest, part, name);
    WrittenIsRead(items, b, part, name);
    CutNothing(items);
  }

  /** A key without its list is refused: no bracket opens after it, or none closes. */
  lemma UnclosedListIsRefused(a: Text, key: Text, b: Text, c: Text, part: Part, name: Text)
    requires Apart(a, key) && Lacks(b, '[')
    ensures ListOf(a + (key + ":" + b), key, part, name) == Err(Unbalanced(part, name))
    ensures Lacks(c, ']') ==>
      ListOf(a + (key + ":" + (b + ("[" + c))), key, part, name) == Err(Unbalanced(part, name))
  {
    KeyBeyond(a, key, b);
    KeyRest(a, key, b);
    NotFound(b, '[');
    ListAt(a + (key + ":" + b), key, |a|, b, part, name);
    if Lacks(c, ']') {
      var rest := b + ("[" + c);
      KeyBeyond(a, key, rest);
      KeyRest(a, key, rest);
      ListAt(a + (key + ":" + rest), key, |a|, rest, part, name);
      FoundBehind(b, "[" + c, '[');
      RestBehind(b, '[', c);
      NotFound(c, ']');
    }
  }

  lemma NotFound(s: Text, c: char)
    requires Lacks(s, c)
    ensures Find(s, [c]).None?
  {
    FindBeyond(s, [], c);
    assert s + [] == s;
  }

  lemma FoundFirst(s: Text, c: char)
    requires s != [] && s[0] == c
    ensures Find(s, [c]) == Some(0)
  {
    assert s[..1] == [c];
  }

  lemma FoundBehind(a: Text, s: Text, c: char)
    requires Lacks(a, c) && s != [] && s[0] == c
    ensures Find(a + s, [c]) == Some(|a|)
  {
    FoundFirst(s, c);
    FindBeyond(a, s, c);
  }

  lemma RestBehind(a: Text, c: char, b: Text)
    ensures |a + ([c] + b)| == |a| + 1 + |b| && (a + ([c] + b))[|a| + 1..] == b
  {
  }

  /** No brace of the text closes what stands before it. */
  predicate NeverCloses(s: Text) {
    forall i | 0 <= i < |s| && s[i] == '}' :: !Balance(s[..i], 0, false)
  }

  /** And so is a key without its block: no brace opens after it, or none closes that one. */
  lemma UnclosedBlockIsRefused(a: Text, key: Text, b: Text, c: Text, part: Part, name: Text)
    requires Apart(a, key) && Lacks(b, '{')
    ensures BlockOf(a + (key + ":" + b), key, part, name) == Err(Unbalanced(part, name))
    ensures NeverCloses(c) ==>
      BlockOf(a + (key + ":" + (b + ("{" + c))), key, part, name) == Err(Unbalanced(part, name))
  {
    KeyBeyond(a, key, b);
    KeyRest(a, key, b);
    NotFound(b, '{');
    BlockAt(a + (key + ":" + b), key, |a|, b, part, name);
    if NeverCloses(c) {
      var rest := b + ("{" + c);
      KeyBeyond(a, key, rest);
      KeyRest(a, key, rest);
      BlockAt(a + (key + ":" + rest), key, |a|, rest, part, name);
      FoundBehind(b, "{" + c, '{');
      RestBehind(b, '{', c);
      if Close(c, 1, false).Some? {
        ClosedIsBalanced(c, 1, false);
      }
    }
  }

  lemma PublishListsAreRead(l: Lists, name: Text)
    requires Unmarked(l.publishAllow) && Unmarked(l.publishDeny)
    ensures ListOf(PublishInside(l), "allow", PublishAllow, name) == Ok(l.publishAllow)
    ensures ListOf(PublishInside(l), "deny", PublishDeny, name) == Ok(l.publishDeny)
  {
    var deny := ListLine("deny", l.publishDeny, " ");
    LineTail("allow", l.publishAllow, " ", deny);
    ListRoundTrip("allow", l.publishAllow, " " + deny, PublishAllow, name);
    LineKeys("allow", l.publishAllow, 'n', 'y');
    ListIsRead(ListLine("allow", l.publishAllow, " "), "deny", l.publishDeny, " ", PublishDeny, name);
  }

  lemma PublishIsBalanced(l: Lists)
    requires Unmarked(l.publishAllow) && Unmarked(l.publishDeny)
    ensures Balance(PublishInside(l), 0, false)
  {
    var deny := ListLine("deny", l.publishDeny, " ");
    LineBalance("allow", l.publishAllow, deny, 0);
    LineIsBalanced("deny", l.publishDeny);
  }

  lemma PublishKeys(l: Lists, c: char, d: char)
    requires Unmarked(l.publishAllow) && Unmarked(l.publishDeny)
    requires !(c == 'o' && d == 'w') && !(c == 'n' && d == 'y') && !(c == 's' && d == 'h')
    ensures NoKeyEnds(BlockText("publish", PublishInside(l)), c, d)
    ensures forall i | 0 <= i < 2 ::
      i < |BlockText("publish", PublishInside(l))| && BlockText("publish", PublishInside(l))[i] != ':'
  {
    LineKeys("allow", l.publishAllow, c, d);
    LineKeys("deny", l.publishDeny, c, d);
    KeysOfBoth(ListLine("allow", l.publishAllow, " "), ListLine("deny", l.publishDeny, " "), c, d);
    BlockKeys("publish", PublishInside(l), c, d);
  }

  lemma SubscribeKeys(l: Lists, c: char, d: char)
    requires Unmarked(l.subscribeAllow) && !(c == 'o' && d == 'w') && !(c == 'b' && d == 'e')
    ensures NoKeyEnds(BlockText("subscribe", ListLine("allow", l.subscribeAllow, " ")), c, d)
    ensures forall i | 0 <= i < 2 ::
      i < |BlockText("subscribe", ListLine("allow", l.subscribeAllow, " "))|
      && BlockText("subscribe", ListLine("allow", l.subscribeAllow, " "))[i] != ':'
  {
    LineKeys("allow", l.subscribeAllow, c, d);
    BlockKeys("subscribe", ListLine("allow", l.subscribeAllow, " "), c, d);
  }

  lemma StanzaParts(l: Lists, tail: Text)
    ensures var publish := BlockText("publish", PublishInside(l));
      var subscribe := BlockText("subscribe", ListLine("allow", l.subscribeAllow, " "));
      && WrittenStanza(l, tail) == " " + (publish + (subscribe + tail))
      && WrittenStanza(l, tail) == (" " + publish) + (subscribe + tail)
  {
    var publish := BlockText("publish", PublishInside(l));
    var subscribe := BlockText("subscribe", ListLine("allow", l.subscribeAllow, " "));
    Associate(" " + publish, subscribe, tail);
    Associate(" ", publish, subscribe + tail);
  }

  lemma Associate(a: Text, b: Text, c: Text)
    ensures (a + b) + c == a + (b + c)
  {
  }

  lemma PublishIsRead(l: Lists, tail: Text, name: Text)
    requires Unmarked(l.publishAllow) && Unmarked(l.publishDeny)
    ensures BlockOf(WrittenStanza(l, tail), "publish", PublishBlock, name) == Ok(Some(PublishInside(l)))
  {
    StanzaParts(l, tail);
    PublishIsBalanced(l);
    BlockIsRead(" ", "publish", PublishInside(l),
                BlockText("subscribe", ListLine("allow", l.subscribeAllow, " ")) + tail, PublishBlock, name);
  }

  lemma LineIsBalanced(key: Text, items: seq<Text>)
    requires AllLack(items, '"') && Lacks(key, '"') && Lacks(key, '{') && Lacks(key, '}')
    ensures Balance(ListLine(key, items, " "), 0, false)
  {
    LineBalance(key, items, [], 0);
    assert ListLine(key, items, " ") + [] == ListLine(key, items, " ");
  }

  lemma SubscribeIsRead(l: Lists, tail: Text, name: Text)
    requires Unmarked(l.publishAllow) && Unmarked(l.publishDeny) && Unmarked(l.subscribeAllow)
    ensures BlockOf(WrittenStanza(l, tail), "subscribe", SubscribeBlock, name)
         == Ok(Some(ListLine("allow", l.subscribeAllow, " ")))
  {
    StanzaParts(l, tail);
    PublishKeys(l, 'b', 'e');
    KeysOfBoth(" ", BlockText("publish", PublishInside(l)), 'b', 'e');
    LineIsBalanced("allow", l.subscribeAllow);
    BlockIsRead(" " + BlockText("publish", PublishInside(l)), "subscribe", ListLine("allow", l.subscribeAllow, " "),
                tail, SubscribeBlock, name);
  }

  lemma StanzaFrom(stanza: Text, name: Text, publish: Text, subscribe: Text, l: Lists)
    requires BlockOf(stanza, "publish", PublishBlock, name) == Ok(Some(publish))
    requires BlockOf(stanza, "subscribe", SubscribeBlock, name) == Ok(Some(subscribe))
    requires ListOf(publish, "allow", PublishAllow, name) == Ok(l.publishAllow)
    requires ListOf(publish, "deny", PublishDeny, name) == Ok(l.publishDeny)
    requires ListOf(subscribe, "allow", SubscribeAllow, name) == Ok(l.subscribeAllow)
    ensures StanzaOf(stanza, name) == Ok(l)
  {
  }

  /**
    Reading a written stanza gives back what each list says: what may be published, what may not, and what
    may be subscribed to, each in its own place and in order.
  */
  lemma StanzaRoundTrip(l: Lists, tail: Text, name: Text)
    requires Unmarked(l.publishAllow) && Unmarked(l.publishDeny) && Unmarked(l.subscribeAllow)
    ensures StanzaOf(WrittenStanza(l, tail), name) == Ok(l)
  {
    var inside := ListLine("allow", l.subscribeAllow, " ");
    PublishIsRead(l, tail, name);
    SubscribeIsRead(l, tail, name);
    PublishListsAreRead(l, name);
    ListRoundTrip("allow", l.subscribeAllow, " ", SubscribeAllow, name);
    StanzaFrom(WrittenStanza(l, tail), name, PublishInside(l), inside, l);
  }

  /** A stanza that names no block grants nothing. */
  lemma NoBlocksGrantNothing(stanza: Text, name: Text)
    requires forall j: nat :: !OccursAt(stanza, "publish:", j) && !OccursAt(stanza, "subscribe:", j)
    ensures StanzaOf(stanza, name) == Ok(Lists([], [], []))
  {
    FindIsFirst(stanza, "publish" + ":");
    FindIsFirst(stanza, "subscribe" + ":");
    assert "publish" + ":" == "publish:" && "subscribe" + ":" == "subscribe:";
  }
}
