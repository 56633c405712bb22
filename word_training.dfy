/** What `WordMarkovGenerator._train` computes, as a function of the sentence
    list: each sentence is trimmed and split on runs of white space; one with at
    least `order` tokens adds its first `order` tokens joined by single spaces as a
    start state and, for each window of `order` tokens, pushes the token right
    after it under the window joined by single spaces. */
module WordTraining {
  import opened JsText
  import opened Training

  /** `sentence.trim().split(/\s+/)` */
  function Tokens(sentence: string): (r: seq<string>)
    ensures |r| >= 1
    ensures forall t | t in r :: ' ' !in t
  {
    SplitWs(Trim(sentence))
  }

  /** The tokens of a sentence hold no white space; a sentence of white space
      only gives the one empty token `""`, and any other gives non-empty tokens
      only. */
  lemma TokensPieces(sentence: string)
    ensures forall t | t in Tokens(sentence) :: NoWhiteSpace(t)
    ensures (forall j | 0 <= j < |sentence| :: IsSpace(sentence[j])) ==> Tokens(sentence) == [""]
    ensures (exists j | 0 <= j < |sentence| :: !IsSpace(sentence[j])) ==> forall t | t in Tokens(sentence) :: t != []
  {
    TrimEnds(sentence);
    SplitWsPieces(Trim(sentence));
  }

  /** Tokenising is trimming, collapsing every run of white space to one space and
      splitting on single spaces: words separated by several spaces, tabs or line
      breaks come out as when separated by one space. */
  lemma TokensCollapse(sentence: string)
    ensures Tokens(sentence) == SplitSpace(Collapse(Trim(sentence)))
  {
    SplitWsCollapse(Trim(sentence));
  }

  /** Surrounding white space is dropped and a mixed run of it separates two
      tokens: `" a \t b\n"` gives `["a", "b"]`. */
  lemma TokensIrregular()
    ensures Tokens(" a \t b\n") == ["a", "b"]
  {
    assert TrimStart(" a \t b\n") == "a \t b\n" by {
      assert " a \t b\n"[1..] == "a \t b\n";
    }
    assert TrimEnd("a \t b\n") == "a \t b" by {
      assert "a \t b\n"[..5] == "a \t b";
    }
    assert Collapse("a \t b") == "a b" by {
      assert "a \t b"[1..] == " \t b";
      assert TrimStart(" \t b") == "b" by {
        assert " \t b"[1..] == "\t b";
        assert "\t b"[1..] == " b";
        assert " b"[1..] == "b";
      }
      assert Collapse("b") == "b" by {
        assert "b"[1..] == [];
      }
    }
    assert Trim(" a \t b\n") == "a \t b";
    assert Tokens(" a \t b\n") == SplitSpace("a b") by {
      TokensCollapse(" a \t b\n");
    }
    assert "a b" == Join(["a", "b"]);
    SplitSpaceJoin(["a", "b"]);
  }

  /** Tokenising a sentence written as non-empty white-space-free words joined by
      single spaces gives back exactly those words. */
  lemma TokensJoin(toks: seq<string>)
    requires |toks| >= 1
    requires forall i | 0 <= i < |toks| :: toks[i] != [] && NoWhiteSpace(toks[i])
    ensures Tokens(Join(toks)) == toks
  {
    var s := Join(toks);
    assert Tokens(s) == SplitWs(Trim(s));
    assert Trim(s) == s by {
      JoinEnds(toks);
      assert !IsSpace(toks[0][0]);
      assert !IsSpace(toks[|toks| - 1][|toks[|toks| - 1]| - 1]);
      assert TrimStart(s) == s;
      assert TrimEnd(s) == s;
    }
    assert SplitWs(s) == toks by {
      SplitWsJoin(toks);
    }
  }

  /** `toks.slice(i, i + order).join(' ')` for i = 0 .. |toks| - order - 1. */
  function Windows(toks: seq<string>, order: nat): (r: seq<string>)
    requires order <= |toks|
    ensures |r| == |toks| - order
    decreases |toks|
  {
    if |toks| == order then [] else [Join(toks[..order])] + Windows(toks[1..], order)
  }

  /** Window `i` is the join of the `order` tokens starting at `i`. */
  lemma {:induction false} WindowAt(toks: seq<string>, order: nat, i: nat)
    requires i < |toks| - order
    ensures Windows(toks, order)[i] == Join(toks[i..i + order])
    decreases |toks|
  {
    if i > 0 {
      WindowAt(toks[1..], order, i - 1);
      assert toks[1..][i - 1..i - 1 + order] == toks[i..i + order];
    }
  }

  /** One `forEach` step of `_train`: a sentence of fewer than `order` tokens adds
      nothing. */
  function TrainSentence(t: Tables<string>, sentence: string, order: nat): Tables<string> {
    var toks := Tokens(sentence);
    if |toks| >= order then
      Tables(AddAll(t.transitions, Windows(toks, order), toks[order..]), t.startStates + [Join(toks[..order])])
    else t
  }

  /** `_train(sentences)` applied to tables `t`. */
  function Train(t: Tables<string>, sentences: seq<string>, order: nat): Tables<string>
    decreases |sentences|
  {
    if sentences == [] then t
    else TrainSentence(Train(t, sentences[..|sentences| - 1], order), sentences[|sentences| - 1], order)
  }

  /** The token lists of the sentences with at least `order` tokens, in order. */
  function LongSentences(sentences: seq<string>, order: nat): (r: seq<seq<string>>)
    ensures forall toks | toks in r :: |toks| >= order
    decreases |sentences|
  {
    if sentences == [] then []
    else
      var n := |sentences| - 1;
      var toks := Tokens(sentences[n]);
      LongSentences(sentences[..n], order) + (if |toks| >= order then [toks] else [])
  }

  /** Every sentence of at least `order` tokens contributes its token list. */
  lemma {:induction false} LongSentencesComplete(sentences: seq<string>, order: nat, i: nat)
    requires i < |sentences| && |Tokens(sentences[i])| >= order
    ensures Tokens(sentences[i]) in LongSentences(sentences, order)
    decreases |sentences|
  {
    var n := |sentences| - 1;
    if i < n {
      assert sentences[..n][i] == sentences[i];
      LongSentencesComplete(sentences[..n], order, i);
    }
  }

  /** Every contributed token list comes from a sentence of at least `order`
      tokens; `i` is one such sentence when any list was contributed. */
  lemma {:induction false} LongSentencesSound(sentences: seq<string>, order: nat) returns (i: nat)
    requires LongSentences(sentences, order) != []
    ensures i < |sentences| && |Tokens(sentences[i])| >= order
    decreases |sentences|
  {
    var n := |sentences| - 1;
    if |Tokens(sentences[n])| >= order {
      i := n;
    } else {
      i := LongSentencesSound(sentences[..n], order);
      assert sentences[..n][i] == sentences[i];
    }
  }

  /** Every contributed token list is the token list of some sentence: entry `j`
      comes from sentence `i`. */
  lemma {:induction false} LongSentencesMember(sentences: seq<string>, order: nat, j: nat) returns (i: nat)
    requires j < |LongSentences(sentences, order)|
    ensures i < |sentences|
    ensures LongSentences(sentences, order)[j] == Tokens(sentences[i])
    decreases |sentences|
  {
    var n := |sentences| - 1;
    var prev := LongSentences(sentences[..n], order);
    assert LongSentences(sentences, order) == prev + (if |Tokens(sentences[n])| >= order then [Tokens(sentences[n])] else []);
    if j < |prev| {
      i := LongSentencesMember(sentences[..n], order, j);
      assert sentences[..n][i] == sentences[i];
    } else {
      i := n;
    }
  }

  /** The number of successors a corpus contributes: n - order per sentence of
      n >= order tokens. */
  function SuccessorCount(sentences: seq<string>, order: nat): nat
    decreases |sentences|
  {
    if sentences == [] then 0
    else
      var n := |sentences| - 1;
      var toks := Tokens(sentences[n]);
      SuccessorCount(sentences[..n], order) + (if |toks| >= order then |toks| - order else 0)
  }

  /** A state is `order` space-free tokens joined by single spaces; since the join
      can be undone, this is "splitting it on ' ' gives `order` pieces". */
  ghost predicate IsState(s: string, order: nat) {
    |SplitSpace(s)| == order
  }

  /** The shape every trained table has: keys and start states are states, and
      no successor list is empty. */
  ghost predicate WellFormed(t: Tables<string>, order: nat) {
    && (forall key | key in t.transitions :: IsState(key, order) && t.transitions[key] != [])
    && (forall s | s in t.startStates :: IsState(s, order))
  }

  /** The join of `order` tokens of a sentence is a state. */
  lemma JoinIsState(toks: seq<string>, order: nat)
    requires 0 < order == |toks|
    requires forall t | t in toks :: ' ' !in t
    ensures IsState(Join(toks), order)
  {
    SplitSpaceJoin(toks);
  }

  /** The effect of one sentence: nothing when it has fewer than `order` tokens;
      otherwise one start state, its first `order` tokens joined, and n - order
      successors, every key receiving exactly the tokens that follow the windows
      whose join it is, in order after what it held. */
  lemma {:induction false} TrainSentenceEffect(t: Tables<string>, sentence: string, order: nat, key: string)
    ensures |Tokens(sentence)| < order ==> TrainSentence(t, sentence, order) == t
    ensures key in t.transitions ==> key in TrainSentence(t, sentence, order).transitions
    ensures |Tokens(sentence)| >= order ==>
      TrainSentence(t, sentence, order).startStates == t.startStates + [Join(Tokens(sentence)[..order])]
    ensures |Tokens(sentence)| >= order ==>
      Get(TrainSentence(t, sentence, order).transitions, key)
        == Get(t.transitions, key) + Followers(Windows(Tokens(sentence), order), Tokens(sentence)[order..], key)
    ensures |Tokens(sentence)| >= order ==>
      Size(TrainSentence(t, sentence, order).transitions) == Size(t.transitions) + (|Tokens(sentence)| - order)
  {
    var toks := Tokens(sentence);
    if |toks| >= order {
      var keys, succs, n := Windows(toks, order), toks[order..], |toks| - order;
      var tr := AddFirst(t.transitions, keys, succs, n);
      assert TrainSentence(t, sentence, order).transitions == tr;
      assert Get(tr, key) == Get(t.transitions, key) + Followers(keys, succs, key) by {
        AddFirstAt(t.transitions, keys, succs, key, n);
      }
      assert key in t.transitions ==> key in tr by {
        AddFirstHas(t.transitions, keys, succs, key, n);
      }
      assert Size(tr) == Size(t.transitions) + n by {
        AddFirstSize(t.transitions, keys, succs, n);
      }
    }
  }

  /** Training keeps the start states trained so far and appends one per sentence
      of at least `order` tokens, in corpus order: its first `order` tokens joined
      by single spaces. */
  lemma {:induction false} TrainStartStates(t: Tables<string>, sentences: seq<string>, order: nat)
    ensures |Train(t, sentences, order).startStates| == |t.startStates| + |LongSentences(sentences, order)|
    ensures Train(t, sentences, order).startStates[..|t.startStates|] == t.startStates
    ensures forall j | 0 <= j < |LongSentences(sentences, order)| ::
      Train(t, sentences, order).startStates[|t.startStates| + j] == Join(LongSentences(sentences, order)[j][..order])
    decreases |sentences|
  {
    if sentences != [] {
      var n := |sentences| - 1;
      var prev := Train(t, sentences[..n], order);
      var toks := Tokens(sentences[n]);
      var long := LongSentences(sentences[..n], order);
      TrainStartStates(t, sentences[..n], order);
      if |toks| >= order {
        var r := prev.startStates + [Join(toks[..order])];
        assert Train(t, sentences, order).startStates == r by {
          assert Train(t, sentences, order) == TrainSentence(prev, sentences[n], order);
        }
        assert LongSentences(sentences, order) == long + [toks];
        forall j | 0 <= j < |long + [toks]|
          ensures r[|t.startStates| + j] == Join((long + [toks])[j][..order])
        {
          if j < |long| {
            assert r[|t.startStates| + j] == prev.startStates[|t.startStates| + j];
          }
        }
      } else {
        assert Train(t, sentences, order) == prev by {
          assert Train(t, sentences, order) == TrainSentence(prev, sentences[n], order);
        }
        assert LongSentences(sentences, order) == long;
      }
    }
  }

  /** Every successor in a trained table was seen in the corpus: it is already
      in the tables trained on, or some sentence has `key` as the join of a
      window of its tokens with that token right after it. */
  lemma {:induction false} TrainObserved(t: Tables<string>, sentences: seq<string>, order: nat, key: string, u: string)
    requires key in Train(t, sentences, order).transitions
    requires u in Train(t, sentences, order).transitions[key]
    ensures (key in t.transitions && u in t.transitions[key])
      || exists s, i | s in sentences && 0 <= i < |Tokens(s)| - order ::
           Windows(Tokens(s), order)[i] == key && Tokens(s)[order..][i] == u
    decreases |sentences|
  {
    var n := |sentences| - 1;
    if sentences != [] {
      var prev := Train(t, sentences[..n], order);
      var s := sentences[n];
      var toks := Tokens(s);
      var fol: seq<string> := if |toks| >= order then Followers(Windows(toks, order), toks[order..], key) else [];
      assert u in Get(prev.transitions, key) + fol by {
        assert Train(t, sentences, order) == TrainSentence(prev, s, order);
        TrainSentenceEffect(prev, s, order, key);
        assert Get(prev.transitions, key) + [] == Get(prev.transitions, key);
      }
      if u in fol {
        FollowersFirstMember(Windows(toks, order), toks[order..], key, u, |toks| - order);
        var i :| 0 <= i < |Windows(toks, order)| && Windows(toks, order)[i] == key && toks[order..][i] == u;
        assert s in sentences;
      } else {
        assert key in prev.transitions && u in prev.transitions[key];
        TrainObserved(t, sentences[..n], order, key, u);
        if !(key in t.transitions && u in t.transitions[key]) {
          var v, i :| v in sentences[..n] && 0 <= i < |Tokens(v)| - order
            && Windows(Tokens(v), order)[i] == key && Tokens(v)[order..][i] == u;
          assert v in sentences;
        }
      }
    }
  }

  /** A freshly trained generator has a start state exactly when some sentence
      has at least `order` tokens, so `generate` returns its no-data message
      exactly when none has. */
  lemma StartStatesNonEmpty(sentences: seq<string>, order: nat)
    ensures Train(Empty(), sentences, order).startStates != [] <==>
      exists i | 0 <= i < |sentences| :: |Tokens(sentences[i])| >= order
  {
    TrainStartStates(Empty(), sentences, order);
    if LongSentences(sentences, order) != [] {
      var i := LongSentencesSound(sentences, order);
    }
    if exists i | 0 <= i < |sentences| :: |Tokens(sentences[i])| >= order {
      var i :| 0 <= i < |sentences| && |Tokens(sentences[i])| >= order;
      LongSentencesComplete(sentences, order, i);
    }
  }

  /** Training records exactly n - order successors for each sentence of n >= order
      tokens. */
  lemma {:induction false} TrainSize(t: Tables<string>, sentences: seq<string>, order: nat)
    ensures Size(Train(t, sentences, order).transitions) == Size(t.transitions) + SuccessorCount(sentences, order)
    decreases |sentences|
  {
    if sentences != [] {
      var n := |sentences| - 1;
      TrainSize(t, sentences[..n], order);
      TrainSentenceEffect(Train(t, sentences[..n], order), sentences[n], order, "");
    }
  }

  /** One sentence keeps the tables well formed. */
  lemma {:induction false} TrainSentenceWellFormed(t: Tables<string>, sentence: string, order: nat)
    requires order > 0
    requires WellFormed(t, order)
    ensures WellFormed(TrainSentence(t, sentence, order), order)
  {
    var toks := Tokens(sentence);
    if |toks| >= order {
      var keys := Windows(toks, order);
      var tr := AddFirst(t.transitions, keys, toks[order..], |toks| - order);
      assert TrainSentence(t, sentence, order) == Tables(tr, t.startStates + [Join(toks[..order])]);
      forall k | k in tr
        ensures IsState(k, order) && tr[k] != []
      {
        AddFirstKeys(t.transitions, keys, toks[order..], |toks| - order);
        if k in t.transitions {
          assert |tr[k]| >= |t.transitions[k]| > 0;
        } else {
          var i :| 0 <= i < |keys| && keys[i] == k;
          WindowAt(toks, order, i);
          JoinIsState(toks[i..i + order], order);
        }
      }
      JoinIsState(toks[..order], order);
    }
  }

  /** For a positive order, training keeps the tables well formed: every key and
      start state splits on ' ' into exactly `order` tokens, and no successor list
      is empty. */
  lemma {:induction false} TrainWellFormed(t: Tables<string>, sentences: seq<string>, order: nat)
    requires order > 0
    requires WellFormed(t, order)
    ensures WellFormed(Train(t, sentences, order), order)
    decreases |sentences|
  {
    if sentences != [] {
      var n := |sentences| - 1;
      TrainWellFormed(t, sentences[..n], order);
      TrainSentenceWellFormed(Train(t, sentences[..n], order), sentences[n], order);
    }
  }
}
