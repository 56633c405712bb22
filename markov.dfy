/** The two Markov-chain generators of `js/markov.js`. Each holds its learned
    tables in mutable fields that `Train` fills in place; `Generate` reads them
    and walks the chain. `Math.random()` is the stream `rand` of draws in [0, 1),
    consumed from position `k` on; every generate method returns the position
    after the last draw it used. */
module Markov {
  import opened JsText
  import opened Training
  import CharTraining
  import WordTraining

  /** An out-of-range array read gives `undefined`, and using that as a property
      key reads the entry named "undefined". */
  const UndefinedKey: string := "undefined"

  /** What the word generator returns when it has no start state. */
  const NoDataMessage: string := "Not enough data to generate a definition."

  /** What the char generator's `generate` comes to: the returned word, or, once
      the retry budget is spent, the fact that the JavaScript would still be
      retrying. */
  datatype Outcome = Returned(text: string) | StillRetrying

  /** The longest a walk from `initLen` units can get when it may append while
      `cap` is not reached: the length is checked only after appending, so an
      initial value already at `cap` (with `cap > 0`) can still get one more
      unit. The bound is never below the cap or the initial length, and exceeds
      the larger of the two by at most one. */
  function WalkBound(initLen: nat, cap: nat): (b: nat)
    ensures initLen <= b && cap <= b
    ensures b <= (if initLen < cap then cap else initLen) + 1
    ensures initLen < cap ==> b == cap
    ensures cap == 0 ==> b == initLen
  {
    if initLen < cap then cap else if cap == 0 then initLen else initLen + 1
  }

  /** `starts.filter(s => s.startsWith(prefix))`: every start state that begins
      with the prefix, as often as it occurs (repeats weight the random pick), and
      nothing else. */
  function Matching(starts: seq<string>, prefix: string): (r: seq<string>)
    ensures forall s | s in r :: s in starts && StartsWith(s, prefix)
    ensures forall s | s in starts && StartsWith(s, prefix) :: s in r
    ensures forall s :: multiset(r)[s] == if StartsWith(s, prefix) then multiset(starts)[s] else 0
    decreases |starts|
  {
    if starts == [] then []
    else
      var n := |starts| - 1;
      assert starts == starts[..n] + [starts[n]];
      Matching(starts[..n], prefix) + (if StartsWith(starts[n], prefix) then [starts[n]] else [])
  }

  /** `startStates[Math.floor(r * startStates.length)]` as a property key. */
  function StartAt(startStates: seq<string>, r: real): (s: string)
    requires 0.0 <= r < 1.0
    ensures startStates != [] ==> s in startStates
    ensures startStates == [] ==> s == UndefinedKey
  {
    var i := PickIndex(r, |startStates|);
    if i < |startStates| then startStates[i] else UndefinedKey
  }

  /** The char generator's choice of the state to walk from, and the position of
      the next unused draw. A prefix of at least `order` characters is continued
      from its last `order` characters; a shorter one from a start state that
      begins with it, or from any start state when none does; no prefix from any
      start state. */
  function ChooseStart(startStates: seq<string>, order: nat, prefix: string, rand: nat -> real, k: nat): (r: (string, nat))
    requires prefix != [] || startStates != []
    requires forall j :: 0.0 <= rand(j) < 1.0
    ensures 0 < order <= |prefix| ==> r == (prefix[|prefix| - order..], k)
    ensures order == 0 && prefix != [] ==> r == (prefix, k)
    ensures prefix == [] ==> r.0 in startStates && r.1 == k + 1
    ensures 0 < |prefix| < order && Matching(startStates, prefix) != [] ==>
      r.0 in startStates && StartsWith(r.0, prefix) && r.1 == k + 1
    ensures 0 < |prefix| < order && Matching(startStates, prefix) == [] ==>
      r.1 == k + 2 && (if startStates == [] then r.0 == UndefinedKey else r.0 in startStates)
  {
    if prefix != [] && |prefix| >= order then (Last(prefix, order), k)
    else if prefix != [] then
      // A match begins with the non-empty prefix, so it is never the falsy "",
      // and the `||` falls through exactly when there is no match.
      var possible := Matching(startStates, prefix);
      var i := PickIndex(rand(k), |possible|);
      if i < |possible| then (possible[i], k + 1) else (StartAt(startStates, rand(k + 1)), k + 2)
    else (StartAt(startStates, rand(k)), k + 1)
  }

  /** The key the char walk looks up before appending position `j` of `result`:
      the chosen state for the first step, then the last `order` characters. */
  function CharStateAt(order: nat, state0: string, init: string, result: string, j: nat): string
    requires j <= |result|
  {
    if j == |init| then state0 else Last(result[..j], order)
  }

  /** Every character `result` adds to `init` is one of the successors listed
      under the key looked up before it. */
  ghost predicate CharSteps(tr: map<string, seq<char>>, order: nat, state0: string, init: string, result: string) {
    && |init| <= |result|
    && result[..|init|] == init
    && (forall j | |init| <= j < |result| ::
          CharStateAt(order, state0, init, result, j) in tr
          && result[j] in tr[CharStateAt(order, state0, init, result, j)])
  }

  /** `result` is a finished walk from `init` and `state0`: it extends `init`
      step by step through the table, it stays within the length bound, and it
      stopped short of that bound only at a key with no successors (so a start
      text already at `maxLength` or longer still gets one more character when
      its key has successors). */
  ghost predicate CharWalk(tr: map<string, seq<char>>, order: nat, state0: string, init: string, result: string, maxLength: nat) {
    && CharSteps(tr, order, state0, init, result)
    && |result| <= WalkBound(|init|, maxLength)
    && (|result| < WalkBound(|init|, maxLength) ==> CharStateAt(order, state0, init, result, |result|) !in tr)
  }

  /** Appending a successor of the current key extends a walk by one step. */
  lemma CharStepsExtend(tr: map<string, seq<char>>, order: nat, state0: string, init: string, result: string, c: char)
    requires CharSteps(tr, order, state0, init, result)
    requires CharStateAt(order, state0, init, result, |result|) in tr
    requires c in tr[CharStateAt(order, state0, init, result, |result|)]
    ensures CharSteps(tr, order, state0, init, result + [c])
  {
    var r := result + [c];
    assert r[..|init|] == init;
    forall j | |init| <= j < |r|
      ensures CharStateAt(order, state0, init, r, j) in tr
      ensures r[j] in tr[CharStateAt(order, state0, init, r, j)]
    {
      assert r[..j] == if j < |result| then result[..j] else result;
      assert CharStateAt(order, state0, init, r, j) == CharStateAt(order, state0, init, result, j);
      if j < |result| {
        assert r[j] == result[j];
      }
    }
  }

  /** A capitalised text that begins with a non-empty prefix shows the prefix,
      its first character upper-cased, at its start. */
  lemma CapitalizedPrefix(prefix: string, raw: string, upper: char -> char)
    requires prefix != [] && StartsWith(raw, prefix)
    ensures |prefix| <= |Capitalize(raw, upper)|
    ensures Capitalize(raw, upper)[0] == upper(prefix[0])
    ensures Capitalize(raw, upper)[1..|prefix|] == prefix[1..]
  {
    assert raw[1..][..|prefix| - 1] == raw[..|prefix|][1..];
  }

  /** The key the word walk looks up before appending word `j` of `result`. */
  function WordStateAt(order: nat, state0: string, init: seq<string>, result: seq<string>, j: nat): string
    requires j <= |result|
  {
    if j == |init| then state0 else Join(Last(result[..j], order))
  }

  /** Every word `result` adds to `init` is one of the successors listed under
      the key looked up before it. */
  ghost predicate WordSteps(tr: map<string, seq<string>>, order: nat, state0: string, init: seq<string>, result: seq<string>) {
    && |init| <= |result|
    && result[..|init|] == init
    && (forall j | |init| <= j < |result| ::
          WordStateAt(order, state0, init, result, j) in tr
          && result[j] in tr[WordStateAt(order, state0, init, result, j)])
  }

  /** `result` is a finished word walk from `init` and `state0`, as `CharWalk`. */
  ghost predicate WordWalk(tr: map<string, seq<string>>, order: nat, state0: string, init: seq<string>, result: seq<string>, maxWords: nat) {
    && WordSteps(tr, order, state0, init, result)
    && |result| <= WalkBound(|init|, maxWords)
    && (|result| < WalkBound(|init|, maxWords) ==> WordStateAt(order, state0, init, result, |result|) !in tr)
  }

  /** Appending a successor of the current key extends a word walk by one step. */
  lemma WordStepsExtend(tr: map<string, seq<string>>, order: nat, state0: string, init: seq<string>, result: seq<string>, u: string)
    requires WordSteps(tr, order, state0, init, result)
    requires WordStateAt(order, state0, init, result, |result|) in tr
    requires u in tr[WordStateAt(order, state0, init, result, |result|)]
    ensures WordSteps(tr, order, state0, init, result + [u])
  {
    var r := result + [u];
    assert r[..|init|] == init;
    forall j | |init| <= j < |r|
      ensures WordStateAt(order, state0, init, r, j) in tr
      ensures r[j] in tr[WordStateAt(order, state0, init, r, j)]
    {
      var prior := if j < |result| then result[..j] else result;
      assert r[..j] == prior && result[..j] == prior;
      if j != |init| {
        assert WordStateAt(order, state0, init, r, j) == Join(Last(prior, order));
        assert WordStateAt(order, state0, init, result, j) == Join(Last(prior, order));
      }
      if j < |result| {
        assert r[j] == result[j];
      }
    }
  }

  /** Builds a character model of the given order from a word list. */
  class CharMarkovGenerator {
    const order: nat
    var transitions: map<string, seq<char>>
    var startStates: seq<string>

    ghost function Data(): Tables<char>
      reads this
    {
      Tables(transitions, startStates)
    }

    ghost predicate Valid()
      reads this
    {
      CharTraining.WellFormed(Data(), order)
    }

    constructor (words: seq<string>, order: nat := 3)
      ensures this.order == order
      ensures Data() == CharTraining.Train(Empty(), words, order)
      ensures Valid()
    {
      this.order := order;
      transitions := map[];
      startStates := [];
      new;
      Train(words);
      CharTraining.TrainWellFormed(Empty(), words, order);
    }

    /** `_train`: runs the `forEach` callback on each word in turn. */
    method Train(words: seq<string>)
      modifies this
      ensures Data() == CharTraining.Train(old(Data()), words, order)
      ensures old(Valid()) ==> Valid()
    {
      ghost var t0 := Data();
      for w := 0 to |words|
        invariant Data() == CharTraining.Train(t0, words[..w], order)
      {
        TrainWord(words[w]);
        assert words[..w + 1][..w] == words[..w];
      }
      assert words[..|words|] == words;
      if CharTraining.WellFormed(t0, order) {
        CharTraining.TrainWellFormed(t0, words, order);
      }
    }

    /** The `forEach` callback of `_train`: a word of at least `order` characters
        pushes its start state, then each window's next character, in place. */
    method TrainWord(word: string)
      modifies this
      ensures Data() == CharTraining.TrainWord(old(Data()), word, order)
    {
      if |word| >= order {
        startStates := startStates + [word[..order]];
        PushWindows(word);
      }
    }

    /** The inner `for` loop of the callback: for each window of `order`
        characters, in order, pushes the character right after it. */
    method PushWindows(word: string)
      requires |word| >= order
      modifies this
      ensures transitions == AddAll(old(transitions), CharTraining.Windows(word, order), word[order..])
      ensures startStates == old(startStates)
    {
      ghost var tr0 := transitions;
      for i := 0 to |word| - order
        invariant startStates == old(startStates)
        invariant transitions == AddFirst(tr0, CharTraining.Windows(word, order), word[order..], i)
      {
        var state := word[i..i + order];
        var nextChar := word[i + order];
        CharTraining.WindowAt(word, order, i);
        PushSuccessor(state, nextChar);
      }
    }

    /** `if (!this.transitions[state]) this.transitions[state] = [];` followed by
        `this.transitions[state].push(nextChar)`. */
    method PushSuccessor(state: string, nextChar: char)
      modifies this
      ensures transitions == Push(old(transitions), state, nextChar)
      ensures startStates == old(startStates)
    {
      if state !in transitions {
        transitions := transitions[state := []];
      }
      transitions := transitions[state := transitions[state] + [nextChar]];
    }

    /** `generate({minLength = 5, maxLength = 30, prefix = ''})`, allowed `fuel`
        retries. A returned word has at least `minLength` characters and is, but
        for its capitalised first character, a finished walk from the chosen
        start: it begins with the prefix (or, without one, with the start state)
        and each character after that was listed as a successor of the key
        before it. */
    method Generate(rand: nat -> real, k: nat, upper: char -> char, fuel: nat,
                    minLength: nat := 5, maxLength: nat := 30, prefix: string := "")
      returns (outcome: Outcome, next: nat, ghost raw: string, ghost state0: string, ghost seedDraw: nat)
      requires prefix != [] || startStates != []
      requires forall key | key in transitions :: transitions[key] != []
      requires forall j :: 0.0 <= rand(j) < 1.0
      ensures k <= seedDraw <= next
      ensures outcome.Returned? ==> |outcome.text| >= minLength
      ensures outcome.Returned? && prefix != [] ==>
        && |prefix| <= |outcome.text| <= WalkBound(|prefix|, maxLength)
        && outcome.text[0] == upper(prefix[0])
        && outcome.text[1..|prefix|] == prefix[1..]
      ensures outcome.Returned? ==> outcome.text == Capitalize(raw, upper) && |raw| >= minLength
      ensures outcome.Returned? ==> state0 == ChooseStart(startStates, order, prefix, rand, seedDraw).0
      ensures outcome.Returned? ==>
        CharWalk(transitions, order, state0, if prefix != [] then prefix else state0, raw, maxLength)
      ensures outcome.StillRetrying? ==>
        && |raw| < minLength
        && state0 == ChooseStart(startStates, order, prefix, rand, seedDraw).0
        && CharWalk(transitions, order, state0, if prefix != [] then prefix else state0, raw, maxLength)
      ensures prefix != [] && |prefix| >= minLength ==> outcome.Returned?
      decreases fuel
    {
      var start := ChooseStart(startStates, order, prefix, rand, k);
      var current := start.0;
      var draws := start.1;
      var result := if prefix != [] then prefix else current;
      ghost var init := result;
      var i := 0;
      while i < maxLength
        invariant k <= draws
        invariant |result| == |init| + i
        invariant CharSteps(transitions, order, start.0, init, result)
        invariant current == CharStateAt(order, start.0, init, result, |result|)
        invariant i == 0 || |result| < maxLength
      {
        if current !in transitions {
          break;
        }
        var nextChars := transitions[current];
        var nextChar := nextChars[PickIndex(rand(draws), |nextChars|)];
        draws := draws + 1;
        CharStepsExtend(transitions, order, start.0, init, result, nextChar);
        result := result + [nextChar];
        current := Last(result, order);
        assert result[..|result|] == result;
        i := i + 1;
        if |result| >= maxLength {
          break;
        }
      }
      assert CharWalk(transitions, order, start.0, init, result, maxLength);
      if |result| < minLength {
        if fuel == 0 {
          return StillRetrying, draws, result, start.0, k;
        }
        outcome, next, raw, state0, seedDraw := Generate(rand, draws, upper, fuel - 1, minLength, maxLength, prefix);
        return;
      }
      if prefix != [] {
        CapitalizedPrefix(prefix, result, upper);
      }
      outcome, next, raw, state0, seedDraw := Returned(Capitalize(result, upper)), draws, result, start.0, k;
    }
  }

  /** Builds a word model of the given order from a sentence list. */
  class WordMarkovGenerator {
    const order: nat
    var transitions: map<string, seq<string>>
    var startStates: seq<string>

    ghost function Data(): Tables<string>
      reads this
    {
      Tables(transitions, startStates)
    }

    ghost predicate Valid()
      reads this
    {
      WordTraining.WellFormed(Data(), order)
    }

    constructor (sentences: seq<string>, order: nat := 2)
      ensures this.order == order
      ensures Data() == WordTraining.Train(Empty(), sentences, order)
      ensures order > 0 ==> Valid()
    {
      this.order := order;
      transitions := map[];
      startStates := [];
      new;
      Train(sentences);
      if order > 0 {
        WordTraining.TrainWellFormed(Empty(), sentences, order);
      }
    }

    /** `_train`: runs the `forEach` callback on each sentence in turn. */
    method Train(sentences: seq<string>)
      modifies this
      ensures Data() == WordTraining.Train(old(Data()), sentences, order)
      ensures order > 0 && old(Valid()) ==> Valid()
    {
      ghost var t0 := Data();
      for w := 0 to |sentences|
        invariant Data() == WordTraining.Train(t0, sentences[..w], order)
      {
        TrainSentence(sentences[w]);
        assert sentences[..w + 1][..w] == sentences[..w];
      }
      assert sentences[..|sentences|] == sentences;
      if order > 0 && WordTraining.WellFormed(t0, order) {
        WordTraining.TrainWellFormed(t0, sentences, order);
      }
    }

    /** The `forEach` callback of `_train`: a sentence of at least `order` tokens
        pushes its start state, then each window's next token, in place. */
    method TrainSentence(sentence: string)
      modifies this
      ensures Data() == WordTraining.TrainSentence(old(Data()), sentence, order)
    {
      var words := WordTraining.Tokens(sentence);
      if |words| >= order {
        startStates := startStates + [Join(words[..order])];
        PushWindows(words);
      }
    }

    /** The inner `for` loop of the callback: for each window of `order` tokens,
        in order, pushes the token right after it under the window's join. */
    method PushWindows(words: seq<string>)
      requires |words| >= order
      modifies this
      ensures transitions == AddAll(old(transitions), WordTraining.Windows(words, order), words[order..])
      ensures startStates == old(startStates)
    {
      ghost var tr0 := transitions;
      for i := 0 to |words| - order
        invariant startStates == old(startStates)
        invariant transitions == AddFirst(tr0, WordTraining.Windows(words, order), words[order..], i)
      {
        var state := Join(words[i..i + order]);
        var nextWord := words[i + order];
        WordTraining.WindowAt(words, order, i);
        PushSuccessor(state, nextWord);
      }
    }

    /** `if (!this.transitions[state]) this.transitions[state] = [];` followed by
        `this.transitions[state].push(nextWord)`. */
    method PushSuccessor(state: string, nextWord: string)
      modifies this
      ensures transitions == Push(old(transitions), state, nextWord)
      ensures startStates == old(startStates)
    {
      if state !in transitions {
        transitions := transitions[state := []];
      }
      transitions := transitions[state := transitions[state] + [nextWord]];
    }

    /** `generate({maxWords = 25})`. Without start states it returns the fixed
        message; otherwise the words of the walk from a start state, joined by single
        spaces, with the first character capitalised and a '.' appended exactly
        when the text does not already end with one. */
    method Generate(rand: nat -> real, k: nat, upper: char -> char, maxWords: nat := 25)
      returns (sentence: string, next: nat, ghost state0: string, ghost words: seq<string>)
      requires forall key | key in transitions :: transitions[key] != []
      requires forall j :: 0.0 <= rand(j) < 1.0
      ensures startStates == [] ==> sentence == NoDataMessage && next == k
      ensures startStates != [] ==> state0 == StartAt(startStates, rand(k)) && state0 in startStates
      ensures startStates != [] ==> WordWalk(transitions, order, state0, SplitSpace(state0), words, maxWords)
      ensures startStates != [] ==>
        var text := Capitalize(Join(words), upper);
        && EndsWithDot(sentence)
        && sentence == (if EndsWithDot(text) then text else text + ".")
    {
      if |startStates| == 0 {
        return NoDataMessage, k, "", [];
      }
      var current := startStates[PickIndex(rand(k), |startStates|)];
      next := k + 1;
      state0 := current;
      var result := SplitSpace(current);
      ghost var init := result;
      var i := 0;
      while i < maxWords
        invariant |result| == |init| + i
        invariant WordSteps(transitions, order, state0, init, result)
        invariant current == WordStateAt(order, state0, init, result, |result|)
        invariant i == 0 || |result| < maxWords
      {
        if current !in transitions {
          break;
        }
        var nextWords := transitions[current];
        var nextWord := nextWords[PickIndex(rand(next), |nextWords|)];
        next := next + 1;
        WordStepsExtend(transitions, order, state0, init, result, nextWord);
        result := result + [nextWord];
        current := Join(Last(result, order));
        assert result[..|result|] == result;
        i := i + 1;
        if |result| >= maxWords {
          break;
        }
      }
      words := result;
      sentence := Join(result);
      sentence := Capitalize(sentence, upper);
      if !EndsWithDot(sentence) {
        sentence := sentence + ".";
      }
    }
  }

  /** From a trained start state the word walk begins with that state's own
      `order` words, so the generated text (before capitalisation) begins with
      the start state, and it holds at most `WalkBound(order, maxWords)` words. */
  lemma WordWalkFromState(tr: map<string, seq<string>>, order: nat, state0: string, words: seq<string>, maxWords: nat)
    requires order > 0 && WordTraining.IsState(state0, order)
    requires WordWalk(tr, order, state0, SplitSpace(state0), words, maxWords)
    ensures |words| <= WalkBound(order, maxWords)
    ensures StartsWith(Join(words), state0)
  {
    JoinSplitSpace(state0);
    JoinExtends(SplitSpace(state0), words);
  }
}
