/** The main thread's side of the background upgrade in `js/main.js`: the
    worker's reply is installed into an empty order-3 character generator, which
    then replaces the lite one. */
module Upgrade {
  import opened Training
  import Markov
  import Worker

  /** `worker.onmessage` on the main thread: a new `CharMarkovGenerator([], 3)`
      whose `transitions` and `startStates` are overwritten with the reply's. */
  method Adopt(reply: Tables<char>) returns (full: Markov.CharMarkovGenerator)
    ensures full.order == 3
    ensures full.Data() == reply
  {
    full := new Markov.CharMarkovGenerator([], 3);
    full.transitions := reply.transitions;
    full.startStates := reply.startStates;
  }

  /** Sending the word list to the worker and adopting its reply gives a
      generator indistinguishable from one the main thread trains itself with
      `new CharMarkovGenerator(allWords, 3)`: same order, same tables, and so the
      same table invariant. */
  method AdoptedMatchesDirect(allWords: seq<string>)
    returns (adopted: Markov.CharMarkovGenerator, direct: Markov.CharMarkovGenerator)
    ensures adopted.order == direct.order == 3
    ensures adopted.Data() == direct.Data()
    ensures adopted.Valid() && direct.Valid()
  {
    var reply := Worker.OnMessage(allWords);
    adopted := Adopt(reply);
    direct := new Markov.CharMarkovGenerator(allWords, 3);
  }
}
