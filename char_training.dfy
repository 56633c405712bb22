/** What `CharMarkovGenerator._train` computes, as a function of the word list:
    for each word of at least `order` characters, one start state (its first
    `order` characters) and, for each window of `order` characters, the character
    right after it pushed under that window. Both the main-thread generator and
    the worker's copy are proved to compute exactly this. */
module CharTraining {
  import opened Training

  /** `word.substring(i, i + order)` for i = 0 .. |word| - order - 1. */
  function Windows(word: string, order: nat): (r: seq<string>)
    requires order <= |word|
    ensures |r| == |word| - order
    decreases |word|
  {
    if |word| == order then [] else [word[..order]] + Windows(word[1..], order)
  }

  /** Window `i` is the `order` characters of `word` starting at `i`. */
  lemma {:induction false} WindowAt(word: string, order: nat, i: nat)
    requires i < |word| - order
    ensures Windows(word, order)[i] == word[i..i + order]
    decreases |word|
  {
    if i > 0 {
      WindowAt(word[1..], order, i - 1);
      assert word[1..][i - 1..i - 1 + order] == word[i..i + order];
    }
  }

  /** Every window is `order` characters long. */
  lemma WindowsLength(word: string, order: nat)
    requires order <= |word|
    ensures forall k | k in Windows(word, order) :: |k| == order
  {
    forall k | k in Windows(word, order) ensures |k| == order {
      var i :| 0 <= i < |Windows(word, order)| && Windows(word, order)[i] == k;
      WindowAt(word, order, i);
    }
  }

  /** One `forEach` step of `_train`: a word shorter than `order` adds nothing. */
  function TrainWord(t: Tables<char>, word: string, order: nat): Tables<char> {
    if |word| >= order then
      Tables(AddAll(t.transitions, Windows(word, order), word[order..]), t.startStates + [word[..order]])
    else t
  }

  /** `_train(words)` applied to tables `t`. */
  function Train(t: Tables<char>, words: seq<string>, order: nat): Tables<char>
    decreases |words|
  {
    if words == [] then t
    else TrainWord(Train(t, words[..|words| - 1], order), words[|words| - 1], order)
  }

  /** The words of at least `order` characters, in corpus order. */
  function LongWords(words: seq<string>, order: nat): (r: seq<string>)
    ensures forall w | w in r :: |w| >= order && w in words
    ensures forall w | w in words && |w| >= order :: w in r
    decreases |words|
  {
    if words == [] then []
    else
      var n := |words| - 1;
      LongWords(words[..n], order) + (if |words[n]| >= order then [words[n]] else [])
  }

  /** The number of successors a corpus contributes: |w| - order per long word w. */
  function SuccessorCount(words: seq<string>, order: nat): nat
    decreases |words|
  {
    if words == [] then 0
    else
      var n := |words| - 1;
      SuccessorCount(words[..n], order) + (if |words[n]| >= order then |words[n]| - order else 0)
  }

  /** The shape every trained table has: keys and start states are `order`
      characters long, and no successor list is empty. */
  ghost predicate WellFormed(t: Tables<char>, order: nat) {
    && (forall key | key in t.transitions :: |key| == order && t.transitions[key] != [])
    && (forall s | s in t.startStates :: |s| == order)
  }

  /** The effect of one word: nothing when it is shorter than `order`; otherwise
      one start state, its first `order` characters, and |word| - order successors,
      where every key receives exactly the characters at i + order of the windows
      word[i..i + order] equal to it, in order after what it held. */
  lemma {:induction false} TrainWordEffect(t: Tables<char>, word: string, order: nat, key: string)
    ensures |word| < order ==> TrainWord(t, word, order) == t
    ensures key in t.transitions ==> key in TrainWord(t, word, order).transitions
    ensures |word| >= order ==> TrainWord(t, word, order).startStates == t.startStates + [word[..order]]
    ensures |word| >= order ==>
      Get(TrainWord(t, word, order).transitions, key)
        == Get(t.transitions, key) + Followers(Windows(word, order), word[order..], key)
    ensures |word| >= order ==>
      Size(TrainWord(t, word, order).transitions) == Size(t.transitions) + (|word| - order)
  {
    if |word| >= order {
      var keys, succs, n := Windows(word, order), word[order..], |word| - order;
      var tr := AddFirst(t.transitions, keys, succs, n);
      assert TrainWord(t, word, order).transitions == tr;
      assert Get(tr, key) == Get(t.transitions, key) + Followers(keys, succs, key) by {
        AddFirstAt(t.transitions, keys, succs, key, n);
      }
      assert key in t.transitions ==> key in tr by {
        AddFirstHas(t.transitions, keys, succs, key, n);
      }
      assert Size(tr) == Size(t.transitions) + n by {
        AddFirstSize(t.transitions, keys, succs, n);
      }
    }
  }

  /** Training keeps the start states trained so far and appends one per long
      word, in corpus order: entry j of the new ones is the first `order`
      characters of the j-th word of at least `order` characters. */
  lemma {:induction false} TrainStartStates(t: Tables<char>, words: seq<string>, order: nat)
    ensures |Train(t, words, order).startStates| == |t.startStates| + |LongWords(words, order)|
    ensures Train(t, words, order).startStates[..|t.startStates|] == t.startStates
    ensures forall j | 0 <= j < |LongWords(words, order)| ::
      Train(t, words, order).startStates[|t.startStates| + j] == LongWords(words, order)[j][..order]
    decreases |words|
  {
    if words != [] {
      var n := |words| - 1;
      TrainStartStates(t, words[..n], order);
      var prev := Train(t, words[..n], order);
      var long := LongWords(words[..n], order);
      if |words[n]| >= order {
        var r := prev.startStates + [words[n][..order]];
        assert LongWords(words, order) == long + [words[n]];
        assert Train(t, words, order).startStates == r;
        forall j | 0 <= j < |long + [words[n]]|
          ensures r[|t.startStates| + j] == (long + [words[n]])[j][..order]
        {
          if j < |long| {
            assert r[|t.startStates| + j] == prev.startStates[|t.startStates| + j];
          }
        }
      } else {
        assert LongWords(words, order) == long;
        assert Train(t, words, order) == prev;
      }
    }
  }

  /** Training only appends: every earlier successor list is a prefix of the new
      one under the same key, and earlier start states stay in place. */
  lemma {:induction false} TrainAppendOnly(t: Tables<char>, words: seq<string>, order: nat, key: string)
    requires key in t.transitions
    ensures key in Train(t, words, order).transitions
    ensures t.transitions[key] <= Train(t, words, order).transitions[key]
    ensures t.startStates <= Train(t, words, order).startStates
    decreases |words|
  {
    if words != [] {
      var n := |words| - 1;
      TrainAppendOnly(t, words[..n], order, key);
      TrainWordEffect(Train(t, words[..n], order), words[n], order, key);
    }
  }

  /** Every successor in a trained table was seen in the corpus: it is already
      in the tables trained on, or some word holds `key` as a window with that
      character right after it. */
  lemma {:induction false} TrainObserved(t: Tables<char>, words: seq<string>, order: nat, key: string, c: char)
    requires key in Train(t, words, order).transitions
    requires c in Train(t, words, order).transitions[key]
    ensures (key in t.transitions && c in t.transitions[key])
      || exists w, i | w in words && 0 <= i < |w| - order :: Windows(w, order)[i] == key && w[order..][i] == c
    decreases |words|
  {
    var n := |words| - 1;
    if words != [] {
      var prev := Train(t, words[..n], order);
      var w := words[n];
      TrainWordEffect(prev, w, order, key);
      if |w| >= order && c in Followers(Windows(w, order), w[order..], key) {
        FollowersFirstMember(Windows(w, order), w[order..], key, c, |w| - order);
        var i :| 0 <= i < |Windows(w, order)| && Windows(w, order)[i] == key && w[order..][i] == c;
        assert w in words;
      } else {
        assert key in prev.transitions && c in prev.transitions[key];
        TrainObserved(t, words[..n], order, key, c);
        if !(key in t.transitions && c in t.transitions[key]) {
          var v, i :| v in words[..n] && 0 <= i < |v| - order && Windows(v, order)[i] == key && v[order..][i] == c;
          assert v in words;
        }
      }
    }
  }

  /** A freshly trained generator has a start state exactly when some word has
      at least `order` characters. */
  lemma StartStatesNonEmpty(words: seq<string>, order: nat)
    ensures Train(Empty(), words, order).startStates != [] <==> exists w | w in words :: |w| >= order
  {
    TrainStartStates(Empty(), words, order);
    var long := LongWords(words, order);
    if long != [] {
      assert long[0] in long;
    }
  }

  /** Training records exactly |w| - order successors for each long word w. */
  lemma {:induction false} TrainSize(t: Tables<char>, words: seq<string>, order: nat)
    ensures Size(Train(t, words, order).transitions) == Size(t.transitions) + SuccessorCount(words, order)
    decreases |words|
  {
    if words != [] {
      var n := |words| - 1;
      TrainSize(t, words[..n], order);
      TrainWordEffect(Train(t, words[..n], order), words[n], order, "");
    }
  }

  /** One word keeps the tables well formed. */
  lemma {:induction false} TrainWordWellFormed(t: Tables<char>, word: string, order: nat)
    requires WellFormed(t, order)
    ensures WellFormed(TrainWord(t, word, order), order)
  {
    if |word| >= order {
      var keys := Windows(word, order);
      var tr := AddFirst(t.transitions, keys, word[order..], |word| - order);
      assert TrainWord(t, word, order) == Tables(tr, t.startStates + [word[..order]]);
      WindowsLength(word, order);
      forall k | k in tr
        ensures |k| == order && tr[k] != []
      {
        AddFirstKeys(t.transitions, keys, word[order..], |word| - order);
        if k in t.transitions {
          assert |tr[k]| >= |t.transitions[k]| > 0;
        }
      }
    }
  }

  /** Training keeps the tables well formed; in particular a freshly trained
      generator has only `order`-character keys and start states, and no empty
      successor list. */
  lemma {:induction false} TrainWellFormed(t: Tables<char>, words: seq<string>, order: nat)
    requires WellFormed(t, order)
    ensures WellFormed(Train(t, words, order), order)
    decreases |words|
  {
    if words != [] {
      var n := |words| - 1;
      TrainWellFormed(t, words[..n], order);
      TrainWordWellFormed(Train(t, words[..n], order), words[n], order);
    }
  }

  /** A three-character word at order 2 adds its first two characters as a start
      state and pushes its third under them. */
  lemma ThreeCharWord(t: Tables<char>, w: string)
    requires |w| == 3
    ensures TrainWord(t, w, 2) == Tables(Push(t.transitions, w[..2], w[2]), t.startStates + [w[..2]])
  {
    var keys := Windows(w, 2);
    assert keys == [w[..2]] by {
      WindowAt(w, 2, 0);
    }
    assert w[2..] == [w[2]];
    assert AddAll(t.transitions, keys, w[2..]) == Push(AddFirst(t.transitions, keys, w[2..], 0), w[..2], w[2]);
  }

  /** Order 2 on "cat", "car" and "can": one start state "ca" per word, and the
      single key "ca" holding 't', 'r' and 'n' in corpus order. */
  lemma {:induction false} CatCarCan()
    ensures Train(Empty(), ["cat", "car", "can"], 2) == Tables(map["ca" := "trn"], ["ca", "ca", "ca"])
  {
    var words: seq<string> := ["cat", "car", "can"];
    var e: Tables<char> := Empty();
    assert words[..2] == ["cat", "car"] && words[..2][..1] == ["cat"] && words[..2][..1][..0] == [];
    assert "cat"[..2] == "car"[..2] == "can"[..2] == "ca";
    ThreeCharWord(e, "cat");
    var t1 := Tables(map["ca" := "t"], ["ca"]);
    assert Train(e, ["cat"], 2) == t1 by {
      assert [] + ['t'] == "t";
    }
    ThreeCharWord(t1, "car");
    var t2 := Tables(map["ca" := "tr"], ["ca", "ca"]);
    assert Train(e, ["cat", "car"], 2) == t2 by {
      assert "t" + ['r'] == "tr";
    }
    ThreeCharWord(t2, "can");
    assert "tr" + ['n'] == "trn";
  }
}
