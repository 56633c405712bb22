/** `js/worker.js`: a copy of the character trainer, run off the main thread on
    the full word list, and the message handler that posts the trained tables
    back. The copy is proved to compute the same function as the original. */
module Worker {
  import opened Training
  import CharTraining

  /** The worker's copy of `CharMarkovGenerator`: constructor and `_train` only. */
  class CharMarkovGenerator {
    const order: nat
    var transitions: map<string, seq<char>>
    var startStates: seq<string>

    ghost function Data(): Tables<char>
      reads this
    {
      Tables(transitions, startStates)
    }

    constructor (words: seq<string>, order: nat := 3)
      ensures this.order == order
      ensures Data() == CharTraining.Train(Empty(), words, order)
    {
      this.order := order;
      transitions := map[];
      startStates := [];
      new;
      Train(words);
    }

    /** `_train`: runs the `forEach` callback on each word in turn. */
    method Train(words: seq<string>)
      modifies this
      ensures Data() == CharTraining.Train(old(Data()), words, order)
    {
      ghost var t0 := Data();
      for w := 0 to |words|
        invariant Data() == CharTraining.Train(t0, words[..w], order)
      {
        TrainWord(words[w]);
        assert words[..w + 1][..w] == words[..w];
      }
      assert words[..|words|] == words;
    }

    /** The `forEach` callback of `_train`, as copied. */
    method TrainWord(word: string)
      modifies this
      ensures Data() == CharTraining.TrainWord(old(Data()), word, order)
    {
      if |word| >= order {
        startStates := startStates + [word[..order]];
        PushWindows(word);
      }
    }

    /** The inner `for` loop of the callback: for each window of `order`
        characters, in order, pushes the character right after it. */
    method PushWindows(word: string)
      requires |word| >= order
      modifies this
      ensures transitions == AddAll(old(transitions), CharTraining.Windows(word, order), word[order..])
      ensures startStates == old(startStates)
    {
      ghost var tr0 := transitions;
      for i := 0 to |word| - order
        invariant startStates == old(startStates)
        invariant transitions == AddFirst(tr0, CharTraining.Windows(word, order), word[order..], i)
      {
        var state := word[i..i + order];
        var nextChar := word[i + order];
        CharTraining.WindowAt(word, order, i);
        ghost var prev := transitions;
        if state !in transitions {
          transitions := transitions[state := []];
        }
        transitions := transitions[state := transitions[state] + [nextChar]];
        assert transitions == Push(prev, state, nextChar);
      }
    }
  }

  /** `self.onmessage`: builds an order-3 model of the posted word list and
      replies with exactly its `transitions` and `startStates`, which are well
      formed: three-character keys and start states, no empty successor list. */
  method OnMessage(allWords: seq<string>) returns (reply: Tables<char>)
    ensures reply == CharTraining.Train(Empty(), allWords, 3)
    ensures CharTraining.WellFormed(reply, 3)
  {
    var generator := new CharMarkovGenerator(allWords, 3);
    reply := Tables(generator.transitions, generator.startStates);
    CharTraining.TrainWellFormed(Empty(), allWords, 3);
  }
}
