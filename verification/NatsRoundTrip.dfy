/**
  Parsing what an operator wrote (crates/nats-profile/src/lib.rs, `parse`): every identity of a written ACL
  comes back with its name, its placeholder and its lists. And what is refused.
*/
module NatsRoundTrip {
  import opened Common
  import opened NatsText
  import opened NatsSplice
  import opened NatsProfile
  import opened NatsRender
  import opened NatsStanza

  /** The stanzas of identities, one after the other. */
  function WrittenAcl(ids: seq<Identity>): Text {
    if ids == [] then []
    else "nkey: " + (ids[0].placeholder + (WrittenStanza(ids[0].lists, "\n") + WrittenAcl(ids[1..])))
  }

  predicate UnmarkedLists(l: Lists) {
    Unmarked(l.publishAllow) && Unmarked(l.publishDeny) && Unmarked(l.subscribeAllow)
  }

  /** Each identity is named by its placeholder, no placeholder is used twice, and the subjects are plain. */
  predicate WellWritten(naming: Namer, ids: seq<Identity>, seen: set<Text>)
    decreases |ids|
  {
    ids == []
    || (&& naming(ids[0].placeholder) == Some(ids[0].name) && AllWord(ids[0].placeholder)
        && ids[0].placeholder !in seen && UnmarkedLists(ids[0].lists)
        && WellWritten(naming, ids[1..], seen + {ids[0].placeholder}))
  }

  // ---------------------------------------------------------------------------------------------
  // Tokens
  // ---------------------------------------------------------------------------------------------

  lemma SpaceThenWord(s: Text, i: nat)
    requires i + 1 < |s| && s[i] == ' ' && IsWord(s[i + 1])
    ensures SkipSpaces(s, i) == i + 1
  {
    assert SpaceWidth(s, i) == 1 && SpaceWidth(s, i + 1) == 0;
  }

  lemma TokenAt(m: Text, i: nat, end: nat)
    requires Find(m, NKEY) == Some(i) && SkipSpaces(m, i + 5) == i + 6 && i + 6 <= end <= |m|
    requires WordEnd(m, i + 6) == end
    ensures NextToken(m) == At(i + 6, end - (i + 6))
  {
  }

  /** A text in three parts: what stands before a key and a space, a word, and the rest. */
  function Keyed(a: Text, word: Text, rest: Text): Text {
    a + ("nkey:" + (" " + (word + rest)))
  }

  lemma KeyedWord(a: Text, word: Text, rest: Text)
    requires word != [] && AllWord(word) && EndsToken(rest)
    ensures var m, i := Keyed(a, word, rest), |a| + 6;
      && |m| == i + |word| + |rest| && SkipSpaces(m, i - 1) == i && WordEnd(m, i) == i + |word|
  {
    var m, i := Keyed(a, word, rest), |a| + 6;
    assert m[i - 1] == ' ';
    forall k | i <= k < i + |word| ensures IsWord(m[k]) {
      assert m[k] == word[k - i];
    }
    if rest != [] {
      assert m[i + |word|] == rest[0];
    }
    SpaceThenWord(m, i - 1);
    WordEndOf(m, i, i + |word|);
  }

  lemma KeyedSlices(a: Text, word: Text, rest: Text)
    ensures var m := Keyed(a, word, rest);
      && m[..|a| + 6] == a + "nkey: " && m[|a| + 6..|a| + 6 + |word|] == word && m[|a| + 6 + |word|..] == rest
  {
  }

  /** A key, a space and a word are the next token, if no other key ends the same way before them. */
  lemma TokenBehind(a: Text, word: Text, rest: Text)
    requires Apart(a, "nkey") && word != [] && AllWord(word) && EndsToken(rest)
    ensures NextToken(Keyed(a, word, rest)) == At(|a| + 6, |word|)
  {
    assert "nkey" + ":" == NKEY;
    KeyBeyond(a, "nkey", " " + (word + rest));
    KeyedWord(a, word, rest);
    TokenAt(Keyed(a, word, rest), |a|, |a| + 6 + |word|);
  }

  lemma StanzaKeys(l: Lists)
    requires UnmarkedLists(l)
    ensures Apart(WrittenStanza(l, "\n"), "nkey")
  {
    var publish := BlockText("publish", PublishInside(l));
    var subscribe := BlockText("subscribe", ListLine("allow", l.subscribeAllow, " "));
    PublishKeys(l, 'e', 'y');
    SubscribeKeys(l, 'e', 'y');
    KeysOfBoth(" ", publish, 'e', 'y');
    KeysOfBoth(" " + publish, subscribe, 'e', 'y');
    KeysOfBoth(" " + publish + subscribe, "\n", 'e', 'y');
  }

  /** What follows the first placeholder: its stanza, and the stanzas of the others. */
  function Following(ids: seq<Identity>): Text
    requires ids != []
  {
    WrittenStanza(ids[0].lists, "\n") + WrittenAcl(ids[1..])
  }

  lemma StartsWithSpace(ids: seq<Identity>)
    requires ids != []
    ensures EndsToken(Following(ids))
  {
    StanzaParts(ids[0].lists, "\n");
  }

  lemma AclIsKeyed(a: Text, ids: seq<Identity>)
    requires ids != []
    ensures a + WrittenAcl(ids) == Keyed(a, ids[0].placeholder, Following(ids))
  {
    assert "nkey: " == "nkey:" + " ";
    Associate("nkey:", " ", ids[0].placeholder + Following(ids));
  }

  lemma StanzaUpTo(next: Scanner, a: Text, word: Text, rest: Text)
    requires Scans(next) && Apart(a, "nkey") && word != [] && AllWord(word) && EndsToken(rest)
    ensures Stanza(next, Keyed(a, word, rest)) == a + "nkey: "
  {
    var m := Keyed(a, word, rest);
    assert next(m) == NextToken(m);
    TokenBehind(a, word, rest);
    KeyedSlices(a, word, rest);
  }

  lemma NothingBehind(next: Scanner, a: Text)
    requires Scans(next) && Apart(a, "nkey")
    ensures next(a) == Nothing && Stanza(next, a) == a
  {
    assert next(a) == NextToken(a);
    assert "nkey" + ":" == NKEY;
    KeyNowhere(a, "nkey");
  }

  lemma StanzaLonger(l: Lists)
    ensures WrittenStanza(l, "\n") + "nkey: " == WrittenStanza(l, "\n" + "nkey: ")
  {
    Associate(" " + BlockText("publish", PublishInside(l))
              + BlockText("subscribe", ListLine("allow", l.subscribeAllow, " ")), "\n", "nkey: ");
  }

  predicate NextIsWord(ids: seq<Identity>) {
    ids != [] ==> ids[0].placeholder != [] && AllWord(ids[0].placeholder)
  }

  /** The stanza of the first identity is what was written for it. */
  lemma FirstStanza(next: Scanner, ids: seq<Identity>, name: Text)
    requires Scans(next) && ids != [] && UnmarkedLists(ids[0].lists) && NextIsWord(ids[1..])
    ensures StanzaOf(Stanza(next, Following(ids)), name) == Ok(ids[0].lists)
  {
    var l, written, later := ids[0].lists, WrittenStanza(ids[0].lists, "\n"), ids[1..];
    StanzaKeys(l);
    if later == [] {
      assert written + [] == written;
      NothingBehind(next, written);
      StanzaRoundTrip(l, "\n", name);
    } else {
      StartsWithSpace(later);
      AclIsKeyed(written, later);
      StanzaUpTo(next, written, later[0].placeholder, Following(later));
      StanzaLonger(l);
      StanzaRoundTrip(l, "\n" + "nkey: ", name);
    }
  }

  // ---------------------------------------------------------------------------------------------
  // The round trip
  // ---------------------------------------------------------------------------------------------

  /** What is read of a text with identities in it: the first one, if it is good, and then the others. */
  lemma ReadsFirst(g: Grammar, a: Text, ids: seq<Identity>, seen: set<Text>)
    requires Deployed(g) && Apart(a, "nkey") && ids != [] && NextIsWord(ids)
    ensures var word, rest := ids[0].placeholder, Following(ids);
      var first := FirstIdentity(g.naming, g.read, word, Stanza(g.next, rest), seen);
      Identities(g, a + WrittenAcl(ids), seen)
      == if first.Err? then Err(first.error) else Prepend(first.value, Identities(g, rest, seen + {word}))
  {
    AclIsKeyed(a, ids);
    StartsWithSpace(ids);
    ReadsKeyed(g, a, ids[0].placeholder, Following(ids), seen);
  }

  lemma ReadsKeyed(g: Grammar, a: Text, word: Text, rest: Text, seen: set<Text>)
    requires Deployed(g) && Apart(a, "nkey") && word != [] && AllWord(word) && EndsToken(rest)
    ensures var first := FirstIdentity(g.naming, g.read, word, Stanza(g.next, rest), seen);
      Identities(g, Keyed(a, word, rest), seen)
      == if first.Err? then Err(first.error) else Prepend(first.value, Identities(g, rest, seen + {word}))
  {
    var m := Keyed(a, word, rest);
    TokenBehind(a, word, rest);
    assert g.next(m) == NextToken(m);
    KeyedSlices(a, word, rest);
    StepAt(g, m, |a| + 6, word, rest, seen);
  }

  lemma FirstIsGood(g: Grammar, ids: seq<Identity>, seen: set<Text>)
    requires Deployed(g) && ids != [] && UnmarkedLists(ids[0].lists) && NextIsWord(ids[1..])
    requires g.naming(ids[0].placeholder) == Some(ids[0].name) && ids[0].placeholder !in seen
    ensures FirstIdentity(g.naming, g.read, ids[0].placeholder, Stanza(g.next, Following(ids)), seen) == Ok(ids[0])
  {
    FirstStanza(g.next, ids, ids[0].name);
    var stanza := Stanza(g.next, Following(ids));
    assert g.read(stanza, ids[0].name) == StanzaOf(stanza, ids[0].name);
  }

  lemma OneMoreIsRead(g: Grammar, a: Text, ids: seq<Identity>, seen: set<Text>)
    requires Deployed(g) && Apart(a, "nkey") && ids != [] && NextIsWord(ids) && NextIsWord(ids[1..])
    requires g.naming(ids[0].placeholder) == Some(ids[0].name) && ids[0].placeholder !in seen
    requires UnmarkedLists(ids[0].lists)
    requires Identities(g, Following(ids), seen + {ids[0].placeholder}) == Ok(ids[1..])
    ensures Identities(g, a + WrittenAcl(ids), seen) == Ok(ids)
  {
    ReadsFirst(g, a, ids, seen);
    FirstIsGood(g, ids, seen);
    assert [ids[0]] + ids[1..] == ids;
  }

  lemma WellWrittenIs(naming: Namer, ids: seq<Identity>, seen: set<Text>)
    requires WellWritten(naming, ids, seen) && ids != []
    ensures NextIsWord(ids) && NextIsWord(ids[1..])
  {
  }

  lemma {:induction false} AclIsRead(g: Grammar, a: Text, ids: seq<Identity>, seen: set<Text>)
    requires Deployed(g) && Apart(a, "nkey") && WellWritten(g.naming, ids, seen)
    ensures Identities(g, a + WrittenAcl(ids), seen) == Ok(ids)
    decreases |ids|
  {
    if ids == [] {
      NothingIsRead(g, a, seen);
    } else {
      WellWrittenIs(g.naming, ids, seen);
      StanzaKeys(ids[0].lists);
      AclIsRead(g, WrittenStanza(ids[0].lists, "\n"), ids[1..], seen + {ids[0].placeholder});
      OneMoreIsRead(g, a, ids, seen);
    }
  }

  lemma NothingIsRead(g: Grammar, a: Text, seen: set<Text>)
    requires Deployed(g) && Apart(a, "nkey")
    ensures Identities(g, a + WrittenAcl([]), seen) == Ok([])
  {
    assert a + WrittenAcl([]) == a;
    NothingBehind(g.next, a);
  }

  lemma EmptyIsApart()
    ensures Apart([], "nkey")
  {
  }

  /**
    Parsing a written ACL gives its identities back, in order: each with the name its placeholder holds and
    with exactly the subjects of its own lists.
  */
  lemma ParseRoundTrip(ids: seq<Identity>)
    requires WellWritten(DeployedNamer(), ids, {}) && Lacks(WrittenAcl(ids), '#')
    ensures Identities(DeployedGrammar(), Mask(WrittenAcl(ids), Plain), {}) == Ok(ids)
  {
    NothingElseIsMasked(WrittenAcl(ids), Plain);
    DeployedIs();
    EmptyIsApart();
    AclIsRead(DeployedGrammar(), [], ids, {});
    assert [] + WrittenAcl(ids) == WrittenAcl(ids);
  }

  predicate Uses(ids: seq<Identity>, placeholder: Text) {
    exists i | 0 <= i < |ids| :: ids[i].placeholder == placeholder
  }

  lemma StepRefuses(g: Grammar, a: Text, ids: seq<Identity>, seen: set<Text>, refusal: Error)
    requires Deployed(g) && Apart(a, "nkey") && ids != [] && NextIsWord(ids) && NextIsWord(ids[1..])
    requires g.naming(ids[0].placeholder) == Some(ids[0].name) && ids[0].placeholder !in seen
    requires UnmarkedLists(ids[0].lists)
    requires Identities(g, Following(ids), seen + {ids[0].placeholder}) == Err(refusal)
    ensures Identities(g, a + WrittenAcl(ids), seen) == Err(refusal)
  {
    ReadsFirst(g, a, ids, seen);
    FirstIsGood(g, ids, seen);
  }

  lemma UsedAgain(g: Grammar, a: Text, ids: seq<Identity>, seen: set<Text>)
    requires Deployed(g) && Apart(a, "nkey") && ids != [] && NextIsWord(ids)
    requires g.naming(ids[0].placeholder).Some? && ids[0].placeholder in seen
    ensures Identities(g, a + WrittenAcl(ids), seen) == Err(DuplicatePlaceholder(ids[0].placeholder))
  {
    ReadsFirst(g, a, ids, seen);
  }

  /** A text in which a placeholder is used again is refused, and the refusal names it, whatever follows. */
  lemma {:induction false} RepeatedPlaceholderIsRefused(g: Grammar, a: Text, ids: seq<Identity>, seen: set<Text>,
                                                        again: seq<Identity>)
    requires Deployed(g) && Apart(a, "nkey") && WellWritten(g.naming, ids, seen) && again != [] && NextIsWord(again)
    requires again[0].placeholder in seen || Uses(ids, again[0].placeholder)
    requires g.naming(again[0].placeholder).Some?
    ensures Identities(g, a + WrittenAcl(ids + again), seen) == Err(DuplicatePlaceholder(again[0].placeholder))
    decreases |ids|
  {
    if ids == [] {
      assert ids + again == again;
      UsedAgain(g, a, again, seen);
    } else {
      var all := ids + again;
      assert all[0] == ids[0] && all[1..] == ids[1..] + again;
      WellWrittenIs(g.naming, ids, seen);
      StanzaKeys(ids[0].lists);
      RepeatedPlaceholderIsRefused(g, WrittenStanza(ids[0].lists, "\n"), ids[1..], seen + {ids[0].placeholder}, again);
      StepRefuses(g, a, all, seen, DuplicatePlaceholder(again[0].placeholder));
    }
  }

  /** A token that is no placeholder is refused wherever it stands first, whatever follows. */
  lemma StrangeTokenIsRefused(g: Grammar, m: Text, lead: nat, length: nat, seen: set<Text>)
    requires g.next(m) == At(lead, length) && g.naming(m[lead..lead + length]).None?
    ensures Identities(g, m, seen) == Err(NotAPlaceholder(m[lead..lead + length]))
  {
  }

  // ---------------------------------------------------------------------------------------------
  // What rendering refuses
  // ---------------------------------------------------------------------------------------------

  /** No pair is missing among those the identities need, or rendering stops. */
  lemma {:induction false} AllOrNone(generate: seq<Option<KeyPair>>, n: nat)
    requires n <= |generate|
    ensures AllGenerated(generate, n).Some? <==> forall i | 0 <= i < n :: generate[i].Some?
    ensures AllGenerated(generate, n).Some? ==>
      forall i | 0 <= i < n :: generate[i] == Some(AllGenerated(generate, n).value[i])
  {
    if n > 0 {
      AllOrNone(generate, n - 1);
    }
  }

  /** What is reported of a placeholder that is left: the first one outside comments, the whole word of it. */
  ghost predicate IsRemainder(output: Text, masked: Text, word: Text, at: nat) {
    && at + |word| <= |output| && word == output[at..at + |word|] && AllWord(word)
    && EndsToken(output[at + |word|..]) && Find(masked, REMAINDER) == Some(at)
  }

  lemma RemainderIsTheFirst(output: Text)
    ensures Remainder(output).None? <==> Find(Mask(output, Plain), REMAINDER).None?
    ensures Remainder(output).Some? ==>
      exists at: nat :: IsRemainder(output, Mask(output, Plain), Remainder(output).value, at)
  {
    var found := Find(Mask(output, Plain), REMAINDER);
    if found.Some? {
      WordEndIs(output, found.value);
      assert IsRemainder(output, Mask(output, Plain), Remainder(output).value, found.value);
    }
  }

  /** Rendering succeeds exactly when every key could be generated and no placeholder is left outside comments. */
  lemma RendersExactly(next: Scanner, conf: Text, identities: seq<Identity>, generate: seq<Option<KeyPair>>)
    requires |identities| <= |generate|
    ensures var m := Mask(conf, Plain);
      var generated := AllGenerated(generate, |identities|);
      var r := Rendering(next, conf, m, identities, generated);
      && (r == Err(KeyFailed) <==> exists i | 0 <= i < |identities| :: generate[i].None?)
      && (generated.Some? ==>
            var output := Splice(next, conf, m, PublicKeys(generated.value));
            && (r.Ok? <==> Find(Mask(output, Plain), REMAINDER).None?)
            && (r.Err? ==>
                  && r.error.PlaceholderRemains?
                  && exists at: nat :: IsRemainder(output, Mask(output, Plain), r.error.token, at)))
  {
    AllOrNone(generate, |identities|);
    var generated := AllGenerated(generate, |identities|);
    if generated.Some? {
      RemainderIsTheFirst(Splice(next, conf, Mask(conf, Plain), PublicKeys(generated.value)));
    }
  }
}
