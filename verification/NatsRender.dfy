/** Parsing the stanzas and rendering the configuration (crates/nats-profile/src/lib.rs, `parse`, `render`). */
module NatsRender {
  import opened Common
  import opened NatsText
  import opened NatsSplice
  import opened NatsProfile

  /** The permission lists of one stanza. */
  function StanzaOf(stanza: Text, name: Text): Result<Lists, Error> {
    match BlockOf(stanza, "publish", PublishBlock, name)
    case Err(e) => Err(e)
    case Ok(publish) =>
      match BlockOf(stanza, "subscribe", SubscribeBlock, name)
      case Err(e) => Err(e)
      case Ok(subscribe) =>
        match ListOf(OrEmpty(publish), "allow", PublishAllow, name)
        case Err(e) => Err(e)
        case Ok(publishAllow) =>
          match ListOf(OrEmpty(publish), "deny", PublishDeny, name)
          case Err(e) => Err(e)
          case Ok(publishDeny) =>
            match ListOf(OrEmpty(subscribe), "allow", SubscribeAllow, name)
            case Err(e) => Err(e)
            case Ok(subscribeAllow) => Ok(Lists(publishAllow, publishDeny, subscribeAllow))
  }

  function OrEmpty(text: Option<Text>): Text {
    if text.Some? then text.value else []
  }

  method ReadStanza(stanza: Text, name: Text) returns (r: Result<Lists, Error>)
    ensures r == StanzaOf(stanza, name)
  {
    var publish := Block(stanza, "publish", PublishBlock, name);
    if publish.Err? {
      return Err(publish.error);
    }
    var subscribe := Block(stanza, "subscribe", SubscribeBlock, name);
    if subscribe.Err? {
      return Err(subscribe.error);
    }
    var publishAllow := ListOf(OrEmpty(publish.value), "allow", PublishAllow, name);
    if publishAllow.Err? {
      return Err(publishAllow.error);
    }
    var publishDeny := ListOf(OrEmpty(publish.value), "deny", PublishDeny, name);
    if publishDeny.Err? {
      return Err(publishDeny.error);
    }
    var subscribeAllow := ListOf(OrEmpty(subscribe.value), "allow", SubscribeAllow, name);
    if subscribeAllow.Err? {
      return Err(subscribeAllow.error);
    }
    r := Ok(Lists(publishAllow.value, publishDeny.value, subscribeAllow.value));
  }

  /** The text from one token to the next. */
  function Stanza(next: Scanner, rest: Text): Text {
    match next(rest)
    case Nothing => rest
    case At(lead, _) => rest[..lead]
  }

  /** How the lists of a stanza are read. */
  type Reader = (Text, Text) -> Result<Lists, Error>

  /** The identity of a token and its stanza. */
  function FirstIdentity(naming: Namer, read: Reader, word: Text, stanza: Text, seen: set<Text>)
    : Result<Identity, Error>
  {
    match naming(word)
    case None => Err(NotAPlaceholder(word))
    case Some(name) =>
      if word in seen then Err(DuplicatePlaceholder(word))
      else
        match read(stanza, name)
        case Err(e) => Err(e)
        case Ok(lists) => Ok(Identity(name, word, lists))
  }

  /**
    What parsing needs to know: where tokens are, how they are named and how a stanza is read. The loop over
    tokens is right for any of the three, so they are parameters; `Deployed` says they are this program's.
  */
  datatype Grammar = Grammar(next: Scanner, naming: Namer, read: Reader)

  function DeployedScanner(): Scanner {
    NextToken
  }

  function DeployedNamer(): Namer {
    DeployedName
  }

  /** The grammar of the deployed file. */
  function DeployedGrammar(): Grammar {
    Grammar(DeployedScanner(), DeployedNamer(), StanzaOf)
  }

  /** The grammar of the deployed file, where its definitions do not matter. */
  ghost predicate Deployed(g: Grammar) {
    && Scans(g.next)
    && (forall word {:trigger DeployedName(word)} :: g.naming(word) == DeployedName(word))
    && (forall stanza, name {:trigger StanzaOf(stanza, name)} :: g.read(stanza, name) == StanzaOf(stanza, name))
  }

  /** The identities of a masked text, or the first refusal, reading one stanza at a time. */
  function Identities(g: Grammar, m: Text, seen: set<Text>): Result<seq<Identity>, Error>
    decreases |m|
  {
    match g.next(m)
    case Nothing => Ok([])
    case At(lead, length) =>
      var word, rest := m[lead..lead + length], m[lead + length..];
      match FirstIdentity(g.naming, g.read, word, Stanza(g.next, rest), seen)
      case Err(e) => Err(e)
      case Ok(identity) => Prepend(identity, Identities(g, rest, seen + {word}))
  }

  function Prepend(identity: Identity, later: Result<seq<Identity>, Error>): Result<seq<Identity>, Error> {
    match later
    case Err(e) => Err(e)
    case Ok(identities) => Ok([identity] + identities)
  }

  /** One identity for each token, in order, with its name and its placeholder; none is repeated. */
  ghost predicate Matches(naming: Namer, words: seq<Text>, identities: seq<Identity>, seen: set<Text>)
    decreases |words|
  {
    if words == [] then identities == []
    else
      && identities != []
      && identities[0].placeholder == words[0] && words[0] !in seen && words[0] != []
      && naming(words[0]) == Some(identities[0].name)
      && Matches(naming, words[1..], identities[1..], seen + {words[0]})
  }

  lemma FirstIs(naming: Namer, read: Reader, word: Text, stanza: Text, seen: set<Text>)
    requires FirstIdentity(naming, read, word, stanza, seen).Ok?
    ensures var first := FirstIdentity(naming, read, word, stanza, seen).value;
      && word != [] && word !in seen && first.placeholder == word
      && naming(word) == Some(first.name)
  {
  }

  lemma IdentitiesStep(g: Grammar, m: Text, lead: nat, length: nat, seen: set<Text>)
    requires g.next(m) == At(lead, length)
    ensures var word, rest := m[lead..lead + length], m[lead + length..];
      var first := FirstIdentity(g.naming, g.read, word, Stanza(g.next, rest), seen);
      Identities(g, m, seen)
      == if first.Err? then Err(first.error)
         else Prepend(first.value, Identities(g, rest, seen + {word}))
  {
  }

  /** One step of reading: what an accepted text starts with. */
  lemma IdentitiesUnfold(g: Grammar, m: Text, lead: nat, length: nat, seen: set<Text>)
    requires g.next(m) == At(lead, length) && Identities(g, m, seen).Ok?
    ensures var word, rest, all := m[lead..lead + length], m[lead + length..], Identities(g, m, seen).value;
      && length > 0 && word != [] && word !in seen && all != []
      && g.naming(word) == Some(all[0].name) && all[0].placeholder == word
      && Identities(g, rest, seen + {word}) == Ok(all[1..])
  {
    IdentitiesStep(g, m, lead, length, seen);
    var word, rest := m[lead..lead + length], m[lead + length..];
    FirstIs(g.naming, g.read, word, Stanza(g.next, rest), seen);
    PrependIs(FirstIdentity(g.naming, g.read, word, Stanza(g.next, rest), seen).value, Identities(g, rest, seen + {word}));
  }

  lemma PrependIs(first: Identity, later: Result<seq<Identity>, Error>)
    requires Prepend(first, later).Ok?
    ensures var all := Prepend(first, later).value; all != [] && all[0] == first && later == Ok(all[1..])
  {
    assert ([first] + later.value)[1..] == later.value;
  }

  lemma NoEmptyStep(next: Scanner, m: Text, lead: nat, length: nat)
    requires next(m) == At(lead, length) && length > 0 && NoEmptyToken(next, m[lead + length..])
    ensures NoEmptyToken(next, m)
  {
  }

  lemma {:induction false} IdentitiesMatch(g: Grammar, m: Text, seen: set<Text>)
    requires Identities(g, m, seen).Ok?
    ensures Matches(g.naming, WordsOf(g.next, m), Identities(g, m, seen).value, seen)
    ensures NoEmptyToken(g.next, m)
    decreases |m|
  {
    match g.next(m) {
      case Nothing =>
      case At(lead, length) =>
        IdentitiesUnfold(g, m, lead, length, seen);
        WordsUnfold(g.next, m, lead, length);
        IdentitiesMatch(g, m[lead + length..], seen + {m[lead..lead + length]});
        NoEmptyStep(g.next, m, lead, length);
    }
  }

  lemma {:induction false} MatchesCounts(naming: Namer, words: seq<Text>, identities: seq<Identity>, seen: set<Text>)
    requires Matches(naming, words, identities, seen)
    ensures |identities| == |words|
    ensures forall i | 0 <= i < |words| ::
      identities[i].placeholder == words[i] && naming(words[i]) == Some(identities[i].name)
      && words[i] !in seen
    ensures forall i, j | 0 <= i < j < |words| :: words[i] != words[j]
    decreases |words|
  {
    if words != [] {
      MatchesCounts(naming, words[1..], identities[1..], seen + {words[0]});
      forall i | 0 < i < |words|
        ensures identities[i].placeholder == words[i] && words[i] !in seen && words[i] != words[0]
        ensures naming(words[i]) == Some(identities[i].name)
      {
        assert words[i] == words[1..][i - 1] && identities[i] == identities[1..][i - 1];
      }
      forall i, j | 0 < i < j < |words| ensures words[i] != words[j] {
        assert words[i] == words[1..][i - 1] && words[j] == words[1..][j - 1];
      }
    }
  }

  /**
    When a text parses, there is exactly one identity for each token outside comments, in order, each
    naming its placeholder, and no placeholder is repeated or empty.
  */
  lemma OneIdentityPerToken(g: Grammar, m: Text)
    requires Identities(g, m, {}).Ok?
    ensures var identities, words := Identities(g, m, {}).value, WordsOf(g.next, m);
      && |identities| == |words| && NoEmptyToken(g.next, m)
      && (forall i | 0 <= i < |words| ::
            identities[i].placeholder == words[i] && g.naming(words[i]) == Some(identities[i].name))
      && (forall i, j | 0 <= i < j < |words| :: words[i] != words[j])
  {
    IdentitiesMatch(g, m, {});
    MatchesCounts(g.naming, WordsOf(g.next, m), Identities(g, m, {}).value, {});
  }

  /** What a scan's tokens say about the text it scanned. */
  lemma TokensHead(next: Scanner, m: Text, cursor: nat, tokens: seq<Token>)
    requires cursor <= |m| && tokens == TokensFrom(next, m, cursor)
    ensures tokens == [] <==> next(m[cursor..]).Nothing?
    ensures tokens != [] ==>
      var token := tokens[0];
      && cursor <= token.start <= token.end <= |m|
      && next(m[cursor..]) == At(token.start - cursor, token.end - token.start)
      && m[cursor..][token.start - cursor..token.end - cursor] == m[token.start..token.end]
      && m[cursor..][token.end - cursor..] == m[token.end..]
      && (token.start < token.end ==> tokens[1..] == TokensFrom(next, m, token.end))
  {
  }

  /** The stanza of a token runs to the next token's start, or to the end. */
  lemma StanzaEnds(next: Scanner, m: Text, cursor: nat, tokens: seq<Token>)
    requires cursor <= |m| && tokens == TokensFrom(next, m, cursor)
    ensures var end := if tokens == [] then |m| else tokens[0].start;
      cursor <= end <= |m| && Stanza(next, m[cursor..]) == m[cursor..end]
  {
    TokensHead(next, m, cursor, tokens);
  }

  function Joined(first: seq<Identity>, later: Result<seq<Identity>, Error>): Result<seq<Identity>, Error> {
    match later
    case Err(e) => Err(e)
    case Ok(identities) => Ok(first + identities)
  }

  lemma StepAt(g: Grammar, m: Text, lead: nat, word: Text, rest: Text, seen: set<Text>)
    requires g.next(m) == At(lead, |word|) && m[lead..lead + |word|] == word && m[lead + |word|..] == rest
    ensures var first := FirstIdentity(g.naming, g.read, word, Stanza(g.next, rest), seen);
      Identities(g, m, seen)
      == if first.Err? then Err(first.error) else Prepend(first.value, Identities(g, rest, seen + {word}))
  {
    IdentitiesStep(g, m, lead, |word|, seen);
  }

  lemma ReadsOneMore(g: Grammar, m: Text, cursor: nat, tokens: seq<Token>, seen: set<Text>)
    requires cursor <= |m| && tokens == TokensFrom(g.next, m, cursor) && tokens != []
    ensures var token := tokens[0];
      && cursor <= token.start <= token.end <= |m|
      && var word := m[token.start..token.end];
         var first := FirstIdentity(g.naming, g.read, word, Stanza(g.next, m[token.end..]), seen);
         Identities(g, m[cursor..], seen)
         == if first.Err? then Err(first.error)
            else Prepend(first.value, Identities(g, m[token.end..], seen + {word}))
  {
    TokensHead(g.next, m, cursor, tokens);
    var token := tokens[0];
    StepAt(g, m[cursor..], token.start - cursor, m[token.start..token.end], m[token.end..], seen);
  }

  /** After a placeholder the scan goes on at its end, and its stanza ends where the next token starts. */
  lemma NextStanza(next: Scanner, naming: Namer, m: Text, cursor: nat, tokens: seq<Token>)
    requires cursor <= |m| && tokens == TokensFrom(next, m, cursor) && tokens != []
    requires tokens[0].start <= tokens[0].end <= |m|
    requires naming(m[tokens[0].start..tokens[0].end]).Some?
    ensures tokens[1..] == TokensFrom(next, m, tokens[0].end)
    ensures var end := if |tokens| == 1 then |m| else tokens[1].start;
      tokens[0].end <= end <= |m| && Stanza(next, m[tokens[0].end..]) == m[tokens[0].end..end]
  {
    TokensHead(next, m, cursor, tokens);
    StanzaEnds(next, m, tokens[0].end, tokens[1..]);
  }

  method ReadOne(ghost g: Grammar, m: Text, token: Token, following: Option<Token>, seen: set<Text>,
                 ghost cursor: nat, ghost tokens: seq<Token>)
    returns (r: Result<Identity, Error>)
    requires Deployed(g)
    requires cursor <= |m| && tokens == TokensFrom(g.next, m, cursor) && tokens != [] && token == tokens[0]
    requires token.start <= token.end <= |m|
    requires following == if |tokens| == 1 then None else Some(tokens[1])
    ensures r == FirstIdentity(g.naming, g.read, m[token.start..token.end], Stanza(g.next, m[token.end..]), seen)
  {
    var placeholder := m[token.start..token.end];
    var name := DeployedName(placeholder);
    if name.None? {
      return Err(NotAPlaceholder(placeholder));
    }
    if placeholder in seen {
      return Err(DuplicatePlaceholder(placeholder));
    }
    NextStanza(g.next, g.naming, m, cursor, tokens);
    var end := if following.Some? then following.value.start else |m|;
    var lists := ReadStanza(m[token.end..end], name.value);
    if lists.Err? {
      return Err(lists.error);
    }
    r := Ok(Identity(name.value, placeholder, lists.value));
  }

  /** What the loop has read, and what is left to read, make up the whole. */
  ghost predicate Progress(g: Grammar, m: Text, cursor: nat, left: seq<Token>, seen: set<Text>,
                           identities: seq<Identity>)
  {
    && cursor <= |m| && left == TokensFrom(g.next, m, cursor)
    && Joined(identities, Identities(g, m[cursor..], seen)) == Identities(g, m, {})
  }

  /** One turn of the loop. */
  method ReadNext(ghost g: Grammar, m: Text, token: Token, following: Option<Token>, seen: set<Text>,
                  ghost cursor: nat, ghost left: seq<Token>, ghost identities: seq<Identity>)
    returns (one: Result<Identity, Error>)
    requires Deployed(g) && Progress(g, m, cursor, left, seen, identities)
    requires left != [] && token == left[0] && following == if |left| == 1 then None else Some(left[1])
    ensures token.start <= token.end <= |m|
    ensures one.Err? ==> Identities(g, m, {}) == Err(one.error)
    ensures one.Ok? ==>
      Progress(g, m, token.end, left[1..], seen + {m[token.start..token.end]}, identities + [one.value])
  {
    ReadsOneMore(g, m, cursor, left, seen);
    one := ReadOne(g, m, token, following, seen, cursor, left);
    if one.Ok? {
      ghost var word := m[token.start..token.end];
      FirstIs(g.naming, g.read, word, Stanza(g.next, m[token.end..]), seen);
      NextStanza(g.next, g.naming, m, cursor, left);
      JoinOne(identities, one.value, Identities(g, m[token.end..], seen + {word}));
    }
  }

  lemma ProgressStarts(g: Grammar, m: Text)
    ensures Progress(g, m, 0, TokensFrom(g.next, m, 0), {}, [])
  {
    assert m[0..] == m;
    var all := Identities(g, m, {});
    if all.Ok? {
      assert [] + all.value == all.value;
    }
  }

  lemma ProgressEnds(g: Grammar, m: Text, cursor: nat, seen: set<Text>, identities: seq<Identity>)
    requires Progress(g, m, cursor, [], seen, identities)
    ensures Identities(g, m, {}) == Ok(identities)
  {
    TokensHead(g.next, m, cursor, []);
    assert identities + [] == identities;
  }

  /** Parse the identity stanzas of a text. */
  method ParseWith(ghost g: Grammar, conf: Text) returns (r: Result<seq<Identity>, Error>)
    requires Deployed(g)
    ensures r == Identities(g, Mask(conf, Plain), {})
  {
    var masked := MaskComments(conf);
    var tokens := FindTokens(g.next, masked);
    var seen: set<Text> := {};
    var identities := [];
    var index := 0;
    ghost var cursor: nat := 0;
    ProgressStarts(g, masked);
    assert tokens[0..] == tokens;
    while index < |tokens|
      invariant 0 <= index <= |tokens|
      invariant Progress(g, masked, cursor, tokens[index..], seen, identities)
    {
      var token := tokens[index];
      var following := if index + 1 < |tokens| then Some(tokens[index + 1]) else None;
      assert tokens[index..][1..] == tokens[index + 1..];
      var one := ReadNext(g, masked, token, following, seen, cursor, tokens[index..], identities);
      if one.Err? {
        return Err(one.error);
      }
      seen := seen + {masked[token.start..token.end]};
      identities := identities + [one.value];
      cursor := token.end;
      index := index + 1;
    }
    ProgressEnds(g, masked, cursor, seen, identities);
    r := Ok(identities);
  }

  lemma DeployedIs()
    ensures Deployed(DeployedGrammar())
  {
  }

  method Parse(conf: Text) returns (r: Result<seq<Identity>, Error>)
    ensures r == Identities(DeployedGrammar(), Mask(conf, Plain), {})
  {
    DeployedIs();
    r := ParseWith(DeployedGrammar(), conf);
  }

  lemma JoinOne(first: seq<Identity>, one: Identity, later: Result<seq<Identity>, Error>)
    ensures Joined(first, Prepend(one, later)) == Joined(first + [one], later)
  {
    if later.Ok? {
      assert first + ([one] + later.value) == (first + [one]) + later.value;
    }
  }

  // ---------------------------------------------------------------------------------------------
  // Rendering
  // ---------------------------------------------------------------------------------------------

  /** A generated key pair. */
  datatype KeyPair = KeyPair(publicKey: Text, seed: Text)

  datatype GeneratedSeed = GeneratedSeed(name: Text, pair: KeyPair)

  datatype Rendered = Rendered(conf: Text, seeds: seq<GeneratedSeed>)

  /** The public keys of generated pairs. */
  function PublicKeys(pairs: seq<KeyPair>): (keys: seq<Text>)
    ensures |keys| == |pairs|
  {
    if pairs == [] then [] else [pairs[0].publicKey] + PublicKeys(pairs[1..])
  }

  function SeedsOf(identities: seq<Identity>, pairs: seq<KeyPair>): (seeds: seq<GeneratedSeed>)
    requires |identities| == |pairs|
    ensures |seeds| == |pairs|
    ensures forall i | 0 <= i < |pairs| :: seeds[i] == GeneratedSeed(identities[i].name, pairs[i])
  {
    if pairs == [] then []
    else [GeneratedSeed(identities[0].name, pairs[0])] + SeedsOf(identities[1..], pairs[1..])
  }

  /** The pairs that were generated, if every one of the first `n` was. */
  function AllGenerated(generate: seq<Option<KeyPair>>, n: nat): Option<seq<KeyPair>>
    requires n <= |generate|
    ensures AllGenerated(generate, n).Some? ==> |AllGenerated(generate, n).value| == n
  {
    if n == 0 then Some([])
    else
      var before := AllGenerated(generate, n - 1);
      if before.None? || generate[n - 1].None? then None else Some(before.value + [generate[n - 1].value])
  }

  lemma {:induction false} TokensAreWords(next: Scanner, m: Text, cursor: nat)
    requires cursor <= |m| && NoEmptyToken(next, m[cursor..])
    ensures |TokensFrom(next, m, cursor)| == |WordsOf(next, m[cursor..])|
    decreases |m| - cursor
  {
    var tokens := TokensFrom(next, m, cursor);
    TokensHead(next, m, cursor, tokens);
    match next(m[cursor..]) {
      case Nothing =>
      case At(lead, length) =>
        NoEmptyUnfold(next, m[cursor..], lead, length);
        WordsUnfold(next, m[cursor..], lead, length);
        TokensAreWords(next, m, tokens[0].end);
    }
  }

  lemma NoEmptyUnfold(next: Scanner, m: Text, lead: nat, length: nat)
    requires next(m) == At(lead, length) && NoEmptyToken(next, m)
    ensures length > 0 && NoEmptyToken(next, m[lead + length..])
  {
  }

  /** What has been written, and what splicing the rest will write, make up the whole. */
  ghost predicate Copied(next: Scanner, conf: Text, m: Text, cursor: nat, left: seq<Token>, keys: seq<Text>,
                         output: Text, whole: Text)
    requires |conf| == |m|
  {
    && cursor <= |m| && left == TokensFrom(next, m, cursor) && NoEmptyToken(next, m[cursor..]) && |left| == |keys|
    && output + Splice(next, conf[cursor..], m[cursor..], keys) == whole
  }

  lemma SliceTwice(s: Text, cursor: nat, lead: nat, length: nat)
    requires cursor + lead + length <= |s|
    ensures s[cursor..][..lead] == s[cursor..cursor + lead]
    ensures s[cursor..][lead + length..] == s[cursor + lead + length..]
  {
  }

  /** Splicing from a position is copying up to the token, the key, and splicing from the token's end. */
  lemma SpliceFrom(next: Scanner, conf: Text, m: Text, cursor: nat, lead: nat, length: nat, keys: seq<Text>)
    requires |conf| == |m| && length > 0 && cursor + lead + length <= |m| && keys != []
    requires next(m[cursor..]) == At(lead, length)
    ensures Splice(next, conf[cursor..], m[cursor..], keys)
         == conf[cursor..cursor + lead] + keys[0]
            + Splice(next, conf[cursor + lead + length..], m[cursor + lead + length..], keys[1..])
  {
    SliceTwice(conf, cursor, lead, length);
    SliceTwice(m, cursor, lead, length);
    SpliceStep(next, conf[cursor..], m[cursor..], lead, length, keys);
  }

  lemma Regroup(output: Text, a: Text, key: Text, tail: Text)
    ensures output + (a + key + tail) == (output + a + key) + tail
  {
  }

  lemma WritesOneMore(next: Scanner, conf: Text, m: Text, cursor: nat, left: seq<Token>, keys: seq<Text>,
                      output: Text, whole: Text)
    requires |conf| == |m| && Copied(next, conf, m, cursor, left, keys, output, whole) && left != []
    ensures cursor <= left[0].start <= left[0].end <= |m|
    ensures Copied(next, conf, m, left[0].end, left[1..], keys[1..],
                   output + conf[cursor..left[0].start] + keys[0], whole)
  {
    TokensHead(next, m, cursor, left);
    var token := left[0];
    var lead, length := token.start - cursor, token.end - token.start;
    assert token.start == cursor + lead && token.end == cursor + lead + length;
    NoEmptyUnfold(next, m[cursor..], lead, length);
    SpliceFrom(next, conf, m, cursor, lead, length, keys);
    Regroup(output, conf[cursor..token.start], keys[0], Splice(next, conf[token.end..], m[token.end..], keys[1..]));
  }

  lemma WritesNoMore(next: Scanner, conf: Text, m: Text, cursor: nat, output: Text, whole: Text)
    requires |conf| == |m| && Copied(next, conf, m, cursor, [], [], output, whole)
    ensures output + conf[cursor..] == whole
  {
    TokensHead(next, m, cursor, []);
  }

  lemma WritingStarts(next: Scanner, conf: Text, m: Text, keys: seq<Text>)
    requires |conf| == |m| && NoEmptyToken(next, m) && |keys| == |WordsOf(next, m)|
    ensures Copied(next, conf, m, 0, TokensFrom(next, m, 0), keys, [], Splice(next, conf, m, keys))
  {
    assert conf[0..] == conf && m[0..] == m;
    TokensAreWords(next, m, 0);
    assert [] + Splice(next, conf, m, keys) == Splice(next, conf, m, keys);
  }

  /** The loop that copies the text and puts a key where each token was. */
  method SpliceKeys(ghost next: Scanner, conf: Text, m: Text, tokens: seq<Token>, pairs: seq<KeyPair>)
    returns (output: Text)
    requires |conf| == |m| && tokens == TokensFrom(next, m, 0) && NoEmptyToken(next, m) && |pairs| == |WordsOf(next, m)|
    ensures output == Splice(next, conf, m, PublicKeys(pairs))
  {
    output := [];
    var cursor: nat := 0;
    var i := 0;
    ghost var keys := PublicKeys(pairs);
    WritingStarts(next, conf, m, keys);
    assert tokens[0..] == tokens && keys[0..] == keys && pairs[0..] == pairs;
    while i < |tokens|
      invariant 0 <= i <= |tokens| == |pairs| == |keys|
      invariant keys[i..] == PublicKeys(pairs[i..])
      invariant Copied(next, conf, m, cursor, tokens[i..], keys[i..], output, Splice(next, conf, m, keys))
    {
      WritesOneMore(next, conf, m, cursor, tokens[i..], keys[i..], output, Splice(next, conf, m, keys));
      assert tokens[i..][1..] == tokens[i + 1..] && keys[i..][1..] == keys[i + 1..] && pairs[i..][1..] == pairs[i + 1..];
      assert keys[i..][0] == keys[i] == pairs[i].publicKey;
      output := output + conf[cursor..tokens[i].start] + pairs[i].publicKey;
      cursor := tokens[i].end;
      i := i + 1;
    }
    assert keys[i..] == [] && tokens[i..] == [];
    WritesNoMore(next, conf, m, cursor, output, Splice(next, conf, m, keys));
    output := output + conf[cursor..];
  }

  /** Whether a placeholder is left outside comments, and which. */
  function Remainder(output: Text): Option<Text> {
    match Find(Mask(output, Plain), REMAINDER)
    case None => None
    case Some(at) => Some(output[at..WordEnd(output, at)])
  }

  /** What rendering a parsed text gives. */
  function Rendering(next: Scanner, conf: Text, m: Text, identities: seq<Identity>, generated: Option<seq<KeyPair>>)
    : Result<Rendered, Error>
    requires |conf| == |m| && (generated.Some? ==> |generated.value| == |identities|)
  {
    if generated.None? then Err(KeyFailed)
    else
      var output := Splice(next, conf, m, PublicKeys(generated.value));
      var remains := Remainder(output);
      if remains.Some? then Err(PlaceholderRemains(remains.value))
      else Ok(Rendered(output, SeedsOf(identities, generated.value)))
  }

  method GenerateKeys(generate: seq<Option<KeyPair>>, n: nat) returns (generated: Option<seq<KeyPair>>)
    requires n <= |generate|
    ensures generated == AllGenerated(generate, n)
  {
    var pairs := [];
    var i := 0;
    while i < n
      invariant 0 <= i <= n && AllGenerated(generate, i) == Some(pairs)
    {
      if generate[i].None? {
        NoneStays(generate, i + 1, n);
        return None;
      }
      pairs := pairs + [generate[i].value];
      i := i + 1;
    }
    generated := Some(pairs);
  }

  lemma {:induction false} NoneStays(generate: seq<Option<KeyPair>>, i: nat, n: nat)
    requires i <= n <= |generate| && AllGenerated(generate, i).None?
    ensures AllGenerated(generate, n).None?
    decreases n
  {
    if i < n {
      NoneStays(generate, i, n - 1);
    }
  }

  method CheckRemainder(output: Text) returns (remains: Option<Text>)
    ensures remains == Remainder(output)
  {
    var masked := MaskComments(output);
    var at := Find(masked, REMAINDER);
    if at.None? {
      return None;
    }
    remains := Some(output[at.value..WordEnd(output, at.value)]);
  }

  /**
    Render a text: every placeholder replaced by a generated public key. `generate` is what the key
    generator yields, in order.
  */
  method RenderWith(ghost g: Grammar, conf: Text, parsed: Result<seq<Identity>, Error>,
                    generate: seq<Option<KeyPair>>)
    returns (r: Result<Rendered, Error>)
    requires Deployed(g) && parsed == Identities(g, Mask(conf, Plain), {})
    requires parsed.Ok? ==> |parsed.value| <= |generate|
    ensures parsed.Err? ==> r == Err(parsed.error)
    ensures parsed.Ok? ==>
      r == Rendering(g.next, conf, Mask(conf, Plain), parsed.value, AllGenerated(generate, |parsed.value|))
  {
    if parsed.Err? {
      return Err(parsed.error);
    }
    var masked := MaskComments(conf);
    var tokens := FindTokens(g.next, masked);
    OneIdentityPerToken(g, masked);
    var generated := GenerateKeys(generate, |parsed.value|);
    if generated.None? {
      return Err(KeyFailed);
    }
    var output := SpliceKeys(g.next, conf, masked, tokens, generated.value);
    var remains := CheckRemainder(output);
    if remains.Some? {
      return Err(PlaceholderRemains(remains.value));
    }
    r := Ok(Rendered(output, SeedsOf(parsed.value, generated.value)));
  }

  method Render(conf: Text, generate: seq<Option<KeyPair>>) returns (r: Result<Rendered, Error>)
    requires |WordsOf(DeployedScanner(), Mask(conf, Plain))| <= |generate|
    ensures var g := DeployedGrammar();
      var parsed := Identities(g, Mask(conf, Plain), {});
      if parsed.Err? then r == Err(parsed.error)
      else
        && |parsed.value| <= |generate|
        && r == Rendering(g.next, conf, Mask(conf, Plain), parsed.value, AllGenerated(generate, |parsed.value|))
  {
    var parsed := Parse(conf);
    DeployedIs();
    if parsed.Ok? {
      OneIdentityPerToken(DeployedGrammar(), Mask(conf, Plain));
    }
    r := RenderWith(DeployedGrammar(), conf, parsed, generate);
  }

  /** A generated key is spelled as a token. */
  predicate KeysAreTokens(pairs: seq<KeyPair>) {
    pairs == [] || (pairs[0].publicKey != [] && AllWord(pairs[0].publicKey) && KeysAreTokens(pairs[1..]))
  }

  lemma {:induction false} PublicKeysAreTokens(pairs: seq<KeyPair>)
    requires KeysAreTokens(pairs)
    ensures AreTokens(PublicKeys(pairs))
    decreases |pairs|
  {
    if pairs != [] {
      PublicKeysAreTokens(pairs[1..]);
      assert PublicKeys(pairs)[1..] == PublicKeys(pairs[1..]);
    }
  }

  /**
    When rendering succeeds: one seed per identity, named after it, in order; a scan of the output finds
    exactly the generated keys, in order; and putting the placeholders back over them gives the input
    byte for byte, comments included. Nothing but the tokens was changed, and masking the output is the
    masked input with the same replacements.
  */
  lemma RenderIsExact(g: Grammar, conf: Text, pairs: seq<KeyPair>)
    requires Deployed(g)
    requires var m := Mask(conf, Plain);
      var parsed := Identities(g, m, {});
      && parsed.Ok? && |pairs| == |parsed.value| && KeysAreTokens(pairs)
      && Rendering(g.next, conf, m, parsed.value, Some(pairs)).Ok?
    ensures var m := Mask(conf, Plain);
      var identities := Identities(g, m, {}).value;
      var rendered := Rendering(g.next, conf, m, identities, Some(pairs)).value;
      var masked := Mask(rendered.conf, Plain);
      && |rendered.seeds| == |identities|
      && (forall i | 0 <= i < |identities| :: rendered.seeds[i] == GeneratedSeed(identities[i].name, pairs[i]))
      && WordsOf(g.next, masked) == PublicKeys(pairs)
      && Splice(g.next, rendered.conf, masked, WordsOf(g.next, m)) == conf
      && masked == Splice(g.next, m, m, PublicKeys(pairs))
      && Find(masked, REMAINDER).None?
  {
    var m := Mask(conf, Plain);
    var keys := PublicKeys(pairs);
    OneIdentityPerToken(g, m);
    PublicKeysAreTokens(pairs);
    MaskOfSplice(g.next, conf, Plain, keys);
    SpliceRescans(g.next, m, keys);
    SpliceRestores(g.next, conf, Plain, keys);
  }
}
