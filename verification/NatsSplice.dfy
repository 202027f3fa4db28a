/**
  Splicing generated keys over the tokens of the ACL (crates/nats-profile/src/lib.rs, `render`): what it
  leaves alone, and what a scan of the result finds.
*/
module NatsSplice {
  import opened Common
  import opened NatsText

  /** The tokens in order, up to an empty one. */
  function WordsOf(next: Scanner, m: Text): seq<Text>
    decreases |m|
  {
    match next(m)
    case Nothing => []
    case At(lead, length) =>
      [m[lead..lead + length]] + (if length == 0 then [] else WordsOf(next, m[lead + length..]))
  }

  /** The text with the tokens found in its masked form replaced, in order. */
  function Splice(next: Scanner, conf: Text, m: Text, keys: seq<Text>): Text
    requires |conf| == |m|
    decreases |m|
  {
    match next(m)
    case Nothing => conf
    case At(lead, length) =>
      if keys == [] || length == 0 then conf
      else conf[..lead] + keys[0] + Splice(next, conf[lead + length..], m[lead + length..], keys[1..])
  }

  /** A generated public key is a token: at least one letter, digit or underscore and nothing else. */
  predicate AreTokens(keys: seq<Text>) {
    keys == [] || (keys[0] != [] && AllWord(keys[0]) && AreTokens(keys[1..]))
  }

  /** No token of the text is empty: every `nkey:` is followed by one. */
  predicate NoEmptyToken(next: Scanner, m: Text)
    decreases |m|
  {
    match next(m)
    case Nothing => true
    case At(lead, length) => length > 0 && NoEmptyToken(next, m[lead + length..])
  }

  /** What follows a token: nothing, or a character no token contains. */
  predicate EndsToken(tail: Text) {
    tail == [] || !IsWord(tail[0])
  }

  /** The same whitespace, up to a word, ends in the same place. */
  lemma {:induction false} SameSpaces(m: Text, t: Text, i: nat, lead: nat)
    requires i <= lead <= |m| && lead < |t| && IsWord(t[lead])
    requires forall k | 0 <= k < lead :: m[k] == t[k]
    requires SkipSpaces(m, i) == lead
    ensures SkipSpaces(t, i) == lead
    decreases lead - i
  {
    if i < lead {
      assert SpaceWidth(t, i) == SpaceWidth(m, i);
      SameSpaces(m, t, i + SpaceWidth(m, i), lead);
    }
  }

  lemma {:induction false} WordEndOf(t: Text, i: nat, end: nat)
    requires i <= end <= |t| && (forall k | i <= k < end :: IsWord(t[k])) && (end < |t| ==> !IsWord(t[end]))
    ensures WordEnd(t, i) == end
    decreases end - i
  {
    if i < end {
      WordEndOf(t, i + 1, end);
    }
  }

  /** The scan up to a token depends only on the text before it. */
  lemma SameLead(m: Text, t: Text, lead: nat, i: nat)
    requires Find(m, NKEY) == Some(i) && lead == SkipSpaces(m, i + |NKEY|)
    requires lead < |t| && t[..lead] == m[..lead] && IsWord(t[lead])
    ensures NextToken(t) == At(lead, WordEnd(t, lead) - lead)
  {
    FindIsStable(m, t, NKEY, lead);
    forall k | 0 <= k < lead ensures m[k] == t[k] {
      assert m[..lead][k] == t[..lead][k];
    }
    SameSpaces(m, t, i + |NKEY|, lead);
  }

  /** Replacing a token leaves the scan to find the replacement in its place. */
  lemma NextTokenAfter(next: Scanner, m: Text, lead: nat, key: Text, tail: Text)
    requires Scans(next)
    requires next(m).At? && next(m).lead == lead
    requires key != [] && AllWord(key) && EndsToken(tail)
    ensures next(m[..lead] + key + tail) == At(lead, |key|)
  {
    var t := m[..lead] + key + tail;
    assert t[..lead] == m[..lead] && t[lead] == key[0];
    assert next(m) == NextToken(m) && next(t) == NextToken(t);
    SameLead(m, t, lead, Find(m, NKEY).value);
    forall k | lead <= k < lead + |key| ensures IsWord(t[k]) {
      assert t[k] == key[k - lead];
    }
    WordEndOf(t, lead, lead + |key|);
  }

  /** A token is as long as it can be. */
  lemma TokensAreMaximal(next: Scanner, m: Text)
    requires Scans(next)
    requires next(m).At?
    ensures var n := next(m);
      AllWord(m[n.lead..n.lead + n.length]) && EndsToken(m[n.lead + n.length..])
  {
    assert next(m) == NextToken(m);
    var n := next(m);
    WordEndIs(m, n.lead);
  }

  lemma SpliceStartsTheSame(next: Scanner, conf: Text, m: Text, keys: seq<Text>)
    requires |conf| == |m|
    ensures conf == [] <==> Splice(next, conf, m, keys) == []
    ensures conf != [] ==> Splice(next, conf, m, keys)[0] == conf[0]
  {
  }

  /** A text that is a lead, a token and the rest. */
  lemma WordsStep(next: Scanner, m: Text, lead: nat, word: Text, rest: Text)
    requires lead + |word| <= |m| && m[lead..lead + |word|] == word && m[lead + |word|..] == rest
    requires next(m) == At(lead, |word|) && word != []
    ensures WordsOf(next, m) == [word] + WordsOf(next, rest)
  {
  }

  /** The pieces of a spliced text. */
  lemma SplitAt(m: Text, lead: nat, key: Text, tail: Text)
    requires lead <= |m|
    ensures var out := m[..lead] + key + tail;
      out[..lead] == m[..lead] && out[lead..lead + |key|] == key && out[lead + |key|..] == tail
  {
  }

  lemma WordsOfSpliced(next: Scanner, m: Text, lead: nat, key: Text, tail: Text)
    requires Scans(next)
    requires next(m).At? && next(m).lead == lead && key != [] && AllWord(key) && EndsToken(tail)
    ensures WordsOf(next, m[..lead] + key + tail) == [key] + WordsOf(next, tail)
  {
    NextTokenAfter(next, m, lead, key, tail);
    SplitAt(m, lead, key, tail);
    WordsStep(next, m[..lead] + key + tail, lead, key, tail);
  }

  lemma SpliceStep(next: Scanner, conf: Text, m: Text, lead: nat, length: nat, keys: seq<Text>)
    requires |conf| == |m| && next(m) == At(lead, length) && length > 0 && keys != []
    ensures Splice(next, conf, m, keys)
         == conf[..lead] + keys[0] + Splice(next, conf[lead + length..], m[lead + length..], keys[1..])
  {
  }

  /** The first token respliced, and the rest already so. */
  lemma RescansFrom(next: Scanner, m: Text, lead: nat, length: nat, keys: seq<Text>, tail: Text)
    requires Scans(next)
    requires next(m) == At(lead, length) && length > 0 && keys != []
    requires keys[0] != [] && AllWord(keys[0]) && EndsToken(tail) && WordsOf(next, tail) == keys[1..]
    ensures WordsOf(next, m[..lead] + keys[0] + tail) == keys
  {
    WordsOfSpliced(next, m, lead, keys[0], tail);
    assert [keys[0]] + keys[1..] == keys;
  }

  lemma RestEndsToken(next: Scanner, m: Text, lead: nat, length: nat, keys: seq<Text>)
    requires Scans(next)
    requires next(m) == At(lead, length)
    ensures var rest := m[lead + length..]; EndsToken(Splice(next, rest, rest, keys))
  {
    TokensAreMaximal(next, m);
    SpliceStartsTheSame(next, m[lead + length..], m[lead + length..], keys);
  }

  lemma TokensUnfold(next: Scanner, m: Text, lead: nat, length: nat, keys: seq<Text>)
    requires next(m) == At(lead, length)
    requires NoEmptyToken(next, m) && |keys| == |WordsOf(next, m)| && AreTokens(keys)
    ensures length > 0 && keys != [] && keys[0] != [] && AllWord(keys[0])
    ensures var rest := m[lead + length..];
      NoEmptyToken(next, rest) && |keys[1..]| == |WordsOf(next, rest)| && AreTokens(keys[1..])
  {
  }

  /** Scanning the spliced text finds exactly the generated keys, in order. */
  lemma {:induction false} SpliceRescans(next: Scanner, m: Text, keys: seq<Text>)
    requires Scans(next)
    requires NoEmptyToken(next, m) && |keys| == |WordsOf(next, m)| && AreTokens(keys)
    ensures WordsOf(next, Splice(next, m, m, keys)) == keys
    decreases |m|
  {
    match next(m) {
      case Nothing => assert keys == [];
      case At(lead, length) =>
        TokensUnfold(next, m, lead, length, keys);
        var rest := m[lead + length..];
        SpliceRescans(next, rest, keys[1..]);
        RestEndsToken(next, m, lead, length, keys[1..]);
        RescansFrom(next, m, lead, length, keys, Splice(next, rest, rest, keys[1..]));
        SpliceStep(next, m, m, lead, length, keys);
    }
  }

  // ---------------------------------------------------------------------------------------------
  // Comments and everything else stay as they were
  // ---------------------------------------------------------------------------------------------

  lemma MaskSplit(conf: Text, mode: Mode, lead: nat, length: nat)
    requires lead + length <= |conf|
    ensures var m, open := Mask(conf, mode), ModeAfter(conf[..lead], mode);
      var w := conf[lead..lead + length];
      && m[..lead] == Mask(conf[..lead], mode)
      && m[lead..lead + length] == Mask(w, open)
      && m[lead + length..] == Mask(conf[lead + length..], ModeAfter(w, open))
  {
    var a, w, b := conf[..lead], conf[lead..lead + length], conf[lead + length..];
    var open := ModeAfter(a, mode);
    assert conf == a + (w + b);
    MaskAppend(a, w + b, mode);
    MaskAppend(w, b, open);
    assert Mask(conf, mode) == Mask(a, mode) + (Mask(w, open) + Mask(b, ModeAfter(w, open)));
  }

  /** A token of the masked text is written the same in the original, outside any comment. */
  lemma TokenInOriginal(next: Scanner, conf: Text, mode: Mode, lead: nat, length: nat)
    requires Scans(next)
    requires next(Mask(conf, mode)) == At(lead, length) && length > 0
    ensures var m := Mask(conf, mode);
      var open := ModeAfter(conf[..lead], mode);
      && lead + length <= |conf| && !open.InComment?
      && m[..lead] == Mask(conf[..lead], mode)
      && m[lead..lead + length] == conf[lead..lead + length]
      && m[lead + length..] == Mask(conf[lead + length..], open)
  {
    MaskSplit(conf, mode, lead, length);
    TokensAreMaximal(next, Mask(conf, mode));
    WordsAreUnmasked(conf[lead..lead + length], ModeAfter(conf[..lead], mode));
  }

  lemma MaskThree(a: Text, key: Text, tail: Text, mode: Mode)
    requires AllWord(key) && !ModeAfter(a, mode).InComment?
    ensures Mask(a + key + tail, mode) == Mask(a, mode) + key + Mask(tail, ModeAfter(a, mode))
  {
    assert a + key + tail == a + (key + tail);
    MaskAppend(a, key + tail, mode);
    MaskAppend(key, tail, ModeAfter(a, mode));
    WordsKeepMode(key, ModeAfter(a, mode));
  }

  /** Masking the spliced text is splicing the masked text. */
  lemma {:induction false} MaskOfSplice(next: Scanner, conf: Text, mode: Mode, keys: seq<Text>)
    requires Scans(next)
    requires NoEmptyToken(next, Mask(conf, mode)) && |keys| == |WordsOf(next, Mask(conf, mode))| && AreTokens(keys)
    ensures Mask(Splice(next, conf, Mask(conf, mode), keys), mode) == Splice(next, Mask(conf, mode), Mask(conf, mode), keys)
    decreases |conf|
  {
    var m := Mask(conf, mode);
    match next(m) {
      case Nothing =>
      case At(lead, length) =>
        TokensUnfold(next, m, lead, length, keys);
        TokenInOriginal(next, conf, mode, lead, length);
        var open := ModeAfter(conf[..lead], mode);
        var b := conf[lead + length..];
        MaskOfSplice(next, b, open, keys[1..]);
        MaskThree(conf[..lead], keys[0], Splice(next, b, Mask(b, open), keys[1..]), mode);
        SpliceStep(next, conf, m, lead, length, keys);
        SpliceStep(next, m, m, lead, length, keys);
    }
  }

  lemma {:induction false} SpliceLength(next: Scanner, conf: Text, m: Text, keys: seq<Text>)
    requires |conf| == |m|
    ensures |Splice(next, conf, m, keys)| == |Splice(next, m, m, keys)|
    decreases |m|
  {
    match next(m) {
      case Nothing =>
      case At(lead, length) =>
        if keys != [] && length > 0 {
          SpliceLength(next, conf[lead + length..], m[lead + length..], keys[1..]);
          SpliceStep(next, conf, m, lead, length, keys);
          SpliceStep(next, m, m, lead, length, keys);
        }
    }
  }

  /** Splicing the spliced text with the words that were there: one token and then the rest. */
  lemma RestoreStep(next: Scanner, a: Text, am: Text, lead: nat, key: Text, tail: Text, tailM: Text, m: Text,
                    words: seq<Text>)
    requires Scans(next)
    requires |a| == |am| == lead && |tail| == |tailM| && words != []
    requires next(m).At? && next(m).lead == lead && am == m[..lead]
    requires key != [] && AllWord(key) && EndsToken(tailM)
    ensures Splice(next, a + key + tail, am + key + tailM, words) == a + words[0] + Splice(next, tail, tailM, words[1..])
  {
    NextTokenAfter(next, m, lead, key, tailM);
    SpliceStep(next, a + key + tail, am + key + tailM, lead, |key|, words);
    SplitAt(a, lead, key, tail);
    SplitAt(m, lead, key, tailM);
    assert a[..lead] == a;
  }

  lemma WordsUnfold(next: Scanner, m: Text, lead: nat, length: nat)
    requires next(m) == At(lead, length) && length > 0
    ensures WordsOf(next, m) != [] && WordsOf(next, m)[0] == m[lead..lead + length]
    ensures WordsOf(next, m)[1..] == WordsOf(next, m[lead + length..])
  {
  }

  lemma RestoresHere(next: Scanner, conf: Text, m: Text, lead: nat, length: nat, key: Text, tail: Text, tailM: Text,
                     words: seq<Text>)
    requires Scans(next)
    requires |conf| == |m| && next(m) == At(lead, length)
    requires words != [] && words[0] == conf[lead..lead + length]
    requires key != [] && AllWord(key) && EndsToken(tailM) && |tail| == |tailM|
    requires Splice(next, tail, tailM, words[1..]) == conf[lead + length..]
    ensures Splice(next, conf[..lead] + key + tail, m[..lead] + key + tailM, words) == conf
  {
    RestoreStep(next, conf[..lead], m[..lead], lead, key, tail, tailM, m, words);
    ThreeParts(conf, lead, length);
  }

  lemma ThreeParts(s: Text, lead: nat, length: nat)
    requires lead + length <= |s|
    ensures s[..lead] + s[lead..lead + length] + s[lead + length..] == s
  {
  }

  /** Splicing the original tokens back over the keys gives the original text, byte for byte. */
  lemma {:induction false} SpliceRestores(next: Scanner, conf: Text, mode: Mode, keys: seq<Text>)
    requires Scans(next)
    requires NoEmptyToken(next, Mask(conf, mode)) && |keys| == |WordsOf(next, Mask(conf, mode))| && AreTokens(keys)
    ensures var m := Mask(conf, mode);
      && |Splice(next, conf, m, keys)| == |Splice(next, m, m, keys)|
      && Splice(next, Splice(next, conf, m, keys), Splice(next, m, m, keys), WordsOf(next, m)) == conf
    decreases |conf|, 1
  {
    var m := Mask(conf, mode);
    SpliceLength(next, conf, m, keys);
    match next(m) {
      case Nothing =>
      case At(lead, length) =>
        TokensUnfold(next, m, lead, length, keys);
        SpliceStep(next, conf, m, lead, length, keys);
        SpliceStep(next, m, m, lead, length, keys);
        RestoresFrom(next, conf, mode, lead, length, keys);
    }
  }

  lemma {:induction false} RestoresFrom(next: Scanner, conf: Text, mode: Mode, lead: nat, length: nat, keys: seq<Text>)
    requires Scans(next)
    requires next(Mask(conf, mode)) == At(lead, length)
    requires NoEmptyToken(next, Mask(conf, mode)) && |keys| == |WordsOf(next, Mask(conf, mode))| && AreTokens(keys)
    ensures length > 0 && keys != []
    ensures var m := Mask(conf, mode);
      var tail, tailM := Splice(next, conf[lead + length..], m[lead + length..], keys[1..]),
                         Splice(next, m[lead + length..], m[lead + length..], keys[1..]);
      && |tail| == |tailM|
      && Splice(next, conf[..lead] + keys[0] + tail, m[..lead] + keys[0] + tailM, WordsOf(next, m)) == conf
    decreases |conf|, 0
  {
    var m := Mask(conf, mode);
    TokensUnfold(next, m, lead, length, keys);
    TokenInOriginal(next, conf, mode, lead, length);
    var b, bm := conf[lead + length..], m[lead + length..];
    SpliceRestores(next, b, ModeAfter(conf[..lead], mode), keys[1..]);
    RestEndsToken(next, m, lead, length, keys[1..]);
    WordsUnfold(next, m, lead, length);
    RestoresHere(next, conf, m, lead, length, keys[0], Splice(next, b, bm, keys[1..]), Splice(next, bm, bm, keys[1..]),
                 WordsOf(next, m));
  }
}
