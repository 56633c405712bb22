# PhantomWords Markov generators in Dafny

PhantomWords invents words and definitions with two Markov-chain generators from
`js/markov.js`.

- `CharMarkovGenerator` learns which character follows each run of `order`
  characters in a word list. It then walks that table to build new words.
- `WordMarkovGenerator` does the same over the white-space-separated tokens of a
  list of sentences, and builds definition sentences.
- `js/worker.js` holds a copy of the character trainer. It runs in the background
  on the full word list and posts back `{transitions, startStates}`.
- `js/main.js` installs that reply into an empty order-3 generator, which then
  replaces the one built from the short word list.

The model keeps the imperative shape of the code. Each generator is a class whose
`transitions` (a map from state to successor list) and `startStates` are fields
that `Train` fills in place: the `forEach` callback and its inner `for` loop
become methods with loop invariants. The `generate` methods are loops over those
fields.

Every imperative method is proved against a specification written as functions:

- `Training` describes a table as pushes onto successor lists.
- `CharTraining` and `WordTraining` describe what training a corpus computes.
- The `CharWalk` and `WordWalk` predicates in `Markov` describe what a finished
  generation walk is.

The lemmas next to those functions prove what the code promises:

- start-state bookkeeping;
- key shapes and non-empty successor lists;
- exact successor counts;
- append-only growth;
- that every successor was seen in the corpus;
- the split/join round trip behind the word states;
- that the worker's copy builds exactly the same tables as the original.

Randomness is an input. `rand: nat -> real` is the sequence of `Math.random()`
draws, each in [0, 1). A generate method reads it from position `k` on and
returns the position after the last draw it used. `Math.floor(r * n)` is
`JsText.PickIndex`, which is proved to be a valid index for every non-empty list.
The one-character upper-casing `charAt(0).toUpperCase()` is the parameter
`upper: char -> char`.

Two behaviours of the code shape the contracts:

- **Length bound.** The generation loop appends a unit before it compares the
  length with the cap. So a starting text (prefix or start state) that already
  has `maxLength` or more units (and `maxLength > 0`) can still get one more
  unit; nothing is appended when the current key has no entry. `Markov.WalkBound`
  is the bound, for `maxLength` in `CharMarkovGenerator` and for `maxWords` in
  `WordMarkovGenerator`.
- **No training data.** `generate` has no special case for empty start states
  in the character generator:
  - With no prefix and no start states, it reads a property of `undefined` and
    throws. The model makes this case a precondition, and
    `CharTraining.StartStatesNonEmpty` says exactly which word lists rule it out.
  - With a short prefix and no start states, it looks up the key
    `"undefined"`. The model does exactly that (`Markov.UndefinedKey`).

## Model

| member | source | states |
|---|---|---|
| JsText.Last | js/markov.js:36 | `slice(-k)`: the last `k` units, or all of them when there are fewer; for `k == 0` the whole input (JavaScript reads `-0` as `0`) |
| JsText.PickIndex | js/markov.js:40 | `Math.floor(r * n)` with `r` in [0, 1) is a valid index into any non-empty list, and 0 for an empty one |
| JsText.ScaledDrawInRange | js/markov.js:40 | a draw in [0, 1) scaled by `n` lies in [0, n) |
| JsText.Capitalize | js/markov.js:61 | the result has the input's length, its first character is upper-cased and the rest is unchanged |
| JsText.StartsWith | js/markov.js:39 | `s.startsWith(p)`: `p` is no longer than `s` and is its leading part |
| JsText.EndsWithDot | js/markov.js:119 | `s.endsWith('.')`: `s` is non-empty and its last character is `.` |
| JsText.IsSpace | js/markov.js:79 | the characters `\s` matches and `trim()` strips: the ECMAScript WhiteSpace and LineTerminator code points |
| JsText.TrimStart | js/markov.js:79 | the leading half of `trim()`: leading white space removed; never longer than the input, and strictly shorter when the input starts with white space |
| JsText.TrimEnd | js/markov.js:79 | the trailing half of `trim()`: trailing white space removed; its properties are stated by `JsText.TrimEndShape` |
| JsText.Trim | js/markov.js:79 | `s.trim()` is leading white space removed, then trailing white space removed; its properties are stated by `JsText.TrimEnds` |
| JsText.TrimStartSuffix | js/markov.js:79 | removing leading white space keeps a suffix of the input |
| JsText.TrimStartRemoved | js/markov.js:79 | every character removed as leading white space is white space |
| JsText.TrimStartEnds | js/markov.js:79 | what remains after removing leading white space does not start with white space, and it ends as the input does when the input ends in something else |
| JsText.TrimEndShape | js/markov.js:79 | removing trailing white space removes white space only and keeps a prefix that ends with something else |
| JsText.TrimEnds | js/markov.js:79 | neither end of `s.trim()` is white space, it is no longer than `s`, and it is empty exactly when `s` is all white space |
| JsText.SplitWs | js/markov.js:79 | `split(/\s+/)` always yields at least one piece, and no piece contains a space; which pieces it yields, for every input, is stated by `JsText.SplitWsCollapse` |
| JsText.SplitWsPieces | js/markov.js:79 | no piece of `split(/\s+/)` holds white space of any kind; `""` splits into the one piece `""`; when neither end of the input is white space, as after `trim()`, no piece is empty |
| JsText.SplitWsNoWhiteSpace | js/markov.js:79 | no piece of `split(/\s+/)` holds white space of any kind |
| JsText.SplitWsNonEmpty | js/markov.js:79 | when neither end of the input is white space, `split(/\s+/)` yields no empty piece |
| JsText.Collapse | js/markov.js:79 | every maximal run of white space replaced by one space; never longer than the input |
| JsText.CollapseShape | js/markov.js:79 | the only white space left after collapsing is single spaces: each white-space character is ' ' and is not followed by another space |
| JsText.CollapseKeeps | js/markov.js:79 | a string whose only white space is single spaces is left unchanged by collapsing |
| JsText.CollapseToken | js/markov.js:79 | a white-space-free prefix passes through collapsing unchanged |
| JsText.SplitWsCollapse | js/markov.js:79 | for every string, `split(/\s+/)` gives exactly the pieces of the string with each white-space run collapsed to one space, split on single spaces: a run of several spaces, tabs or line breaks separates as one space does, and white space at either end gives an empty first or last piece |
| JsText.SplitWsJoin | js/markov.js:79 | splitting on white space gives back any non-empty list of non-empty white-space-free tokens joined by single spaces |
| JsText.Join | js/markov.js:116 | `toks.join(' ')`: the tokens in order with one space between neighbours, and `""` for no tokens |
| JsText.JoinEnds | js/markov.js:116 | the join of non-empty tokens starts with the first token's first character and ends with the last token's last character |
| JsText.SplitSpace | js/markov.js:103 | `s.split(' ')` always yields at least one piece; `JsText.JoinSplitSpace` and `JsText.SplitSpaceJoin` are its round trips with the join |
| JsText.JoinSplitSpace | js/markov.js:103 | splitting a string on single spaces and joining the pieces with single spaces gives back the string |
| JsText.SplitSpaceJoin | js/markov.js:81 | joining space-free tokens with `' '` and splitting the result on `' '` gives back the tokens |
| JsText.JoinAppend | js/markov.js:116 | joining two non-empty token lists end to end is the two joins with one space between them |
| Training.Push | js/markov.js:22-25 | create-if-absent then push under one key; its effect on every key is stated by `Training.GetPush` |
| Training.GetPush | js/markov.js:22-25 | one push appends the unit under its key, creates the key if absent, and leaves every other key unchanged |
| Training.SizePush | js/markov.js:25 | every push records exactly one more successor |
| Training.AddFirstSize | js/markov.js:19-26 | `n` pushes record exactly `n` more successors |
| Training.AddFirstAt | js/markov.js:19-26 | after the pushes, each key holds its old list followed by exactly the units pushed under it, in push order |
| Training.AddFirstHas | js/markov.js:22-23 | after the pushes, a key is present iff it was before or something was pushed under it |
| Training.AddFirstKeys | js/markov.js:22-25 | pushes only create keys that were pushed under, never leave a list empty, and never drop or shorten an existing list |
| Training.FollowersFirstMember | js/markov.js:19-26 | a unit is among a key's new successors iff it was pushed under that key at some step |
| CharTraining.Windows | js/markov.js:19-20 | one window per loop index `0 <= i < word.length - order`, so `word.length - order` of them; `CharTraining.WindowAt` gives each |
| CharTraining.WindowAt | js/markov.js:20 | window `i` is `word.substring(i, i + order)` |
| CharTraining.WindowsLength | js/markov.js:20 | every window key is exactly `order` characters long |
| CharTraining.TrainWord | js/markov.js:15-28 | one run of the `forEach` callback on the tables; its effect is stated by `CharTraining.TrainWordEffect` |
| CharTraining.Train | js/markov.js:14-29 | the callback applied to each word in corpus order; its properties are the lemmas below |
| CharTraining.LongWords | js/markov.js:16 | exactly the corpus words of at least `order` characters: each entry is such a word of the corpus, and each such word of the corpus is an entry |
| CharTraining.TrainWordEffect | js/markov.js:15-28 | a word shorter than `order` changes nothing; any other word adds its first `order` characters as one start state and one successor per window (length minus `order`), each key receiving exactly the characters that follow its windows, in order; no key is lost |
| CharTraining.TrainStartStates | js/markov.js:15-17 | training appends one start state per word of at least `order` characters, in corpus order; entry `j` is the first `order` characters of the `j`-th such word; earlier entries stay in place |
| CharTraining.StartStatesNonEmpty | js/markov.js:14-17 | a freshly trained generator has a start state exactly when some word has at least `order` characters |
| CharTraining.TrainAppendOnly | js/markov.js:15-26 | training only appends: every earlier successor list is a prefix of the new one, and earlier start states are kept |
| CharTraining.TrainObserved | js/markov.js:19-25 | every successor in a trained table was already there or is the character right after an occurrence of its key as a window of some corpus word |
| CharTraining.TrainSize | js/markov.js:19-25 | the total number of successors grows by exactly `length - order` for each word of at least `order` characters, summed over the corpus |
| CharTraining.TrainWordWellFormed | js/markov.js:15-28 | one word keeps keys and start states `order` characters long and successor lists non-empty |
| CharTraining.TrainWellFormed | js/markov.js:14-29 | training on any corpus keeps that shape |
| CharTraining.CatCarCan | js/markov.js:14-29 | at order 2, "cat", "car", "can" give three start states "ca" and the one key "ca" holding `t`, `r`, `n` in that order |
| WordTraining.Tokens | js/markov.js:79 | `sentence.trim().split(/\s+/)` has at least one token, and no token contains a space; which tokens it yields, for every sentence, is stated by `WordTraining.TokensCollapse` |
| WordTraining.TokensPieces | js/markov.js:79 | no token holds white space; a sentence of white space only gives the one token `""`, any other sentence gives non-empty tokens only |
| WordTraining.TokensCollapse | js/markov.js:79 | the tokens of every sentence are the trimmed sentence with each white-space run collapsed to one space, split on single spaces |
| WordTraining.TokensIrregular | js/markov.js:79 | `" a \t b\n"` gives the tokens `["a", "b"]`: surrounding white space is dropped and a mixed run separates two tokens |
| WordTraining.TokensJoin | js/markov.js:79 | tokenising non-empty white-space-free words joined by single spaces gives back exactly those words |
| WordTraining.Windows | js/markov.js:84-85 | one window per loop index `0 <= i < words.length - order`, so `words.length - order` of them; `WordTraining.WindowAt` gives each |
| WordTraining.WindowAt | js/markov.js:85 | window `i` is `toks.slice(i, i + order).join(' ')` |
| WordTraining.JoinIsState | js/markov.js:81-85 | the join by `' '` of `order` space-free tokens is a state: it splits back into exactly `order` pieces |
| WordTraining.TrainSentence | js/markov.js:78-93 | one run of the `forEach` callback on the tables; its effect is stated by `WordTraining.TrainSentenceEffect` |
| WordTraining.Train | js/markov.js:77-94 | the callback applied to each sentence in corpus order; its properties are the lemmas below |
| WordTraining.LongSentences | js/markov.js:80 | the token lists of the sentences with at least `order` tokens, in order; each has at least `order` tokens |
| WordTraining.LongSentencesComplete | js/markov.js:80 | every sentence of at least `order` tokens contributes its token list |
| WordTraining.LongSentencesMember | js/markov.js:80 | every contributed token list is the token list of some sentence |
| WordTraining.LongSentencesSound | js/markov.js:80 | when any token list is contributed, some sentence has at least `order` tokens |
| WordTraining.TrainSentenceEffect | js/markov.js:78-92 | a sentence with fewer than `order` tokens changes nothing; any other adds the join of its first `order` tokens as a start state and `n - order` successors, each key receiving exactly the tokens that follow its windows, in order; no key is lost |
| WordTraining.TrainStartStates | js/markov.js:80-82 | one start state per sentence of at least `order` tokens, in corpus order, each the join of its first `order` tokens; earlier entries stay in place |
| WordTraining.StartStatesNonEmpty | js/markov.js:80-82 | a freshly trained generator has a start state exactly when some sentence has at least `order` tokens, so `generate` gives its no-data message exactly when none has |
| WordTraining.TrainObserved | js/markov.js:84-91 | every successor in a trained table was already there or is the token right after an occurrence of its key as a window of some sentence |
| WordTraining.TrainSize | js/markov.js:84-91 | a corpus contributes exactly `n - order` successors per sentence of `n >= order` tokens |
| WordTraining.TrainSentenceWellFormed | js/markov.js:78-92 | for `order > 0`, one sentence keeps every key and start state a state (a string that splits on `' '` into exactly `order` pieces) and every list non-empty |
| WordTraining.TrainWellFormed | js/markov.js:77-94 | for `order > 0`, training on any corpus keeps that shape |
| Markov.Matching | js/markov.js:39 | the filter keeps exactly the start states that begin with the prefix, each as many times as it occurs among the start states, and no others |
| Markov.WalkBound | js/markov.js:47-56 | the bound on a walk's length is never below the cap or the initial length and exceeds the larger by at most one; it is the cap when the initial length is below it and the initial length when the cap is 0 |
| Markov.StartAt | js/markov.js:42 | a random pick from a non-empty list is a member of it; from an empty one it is the key `"undefined"` |
| Markov.ChooseStart | js/markov.js:35-43 | a prefix of at least `order` characters continues from its last `order` characters with no draw; a shorter one from a start state that begins with it (one draw), or, when none does, from any start state (two draws); no prefix from any start state (one draw) |
| Markov.CharWalk | js/markov.js:47-56 | a finished character walk: it extends the start text one listed successor at a time, keyed by the last `order` characters (the chosen start state for the first); it stays within `WalkBound` of the start length and `maxLength`; and it stops short of that bound only at a key with no entry, so a start text already at `maxLength` still gets one more character when its key has successors |
| Markov.CharStepsExtend | js/markov.js:48-53 | appending a successor of the current key extends a valid walk by one step |
| Markov.CharMarkovGenerator.constructor | js/markov.js:7-12 | the new generator has the given order (default 3), holds exactly the tables training on the words computes, and is well formed |
| Markov.CharMarkovGenerator.Train | js/markov.js:14-29 | the fields become exactly the tables computed from the old ones and the words, and well-formed tables stay well formed |
| Markov.CharMarkovGenerator.TrainWord | js/markov.js:15-28 | one word's callback updates the fields exactly as one training step |
| Markov.CharMarkovGenerator.PushWindows | js/markov.js:19-26 | the inner loop pushes each window's next character under it, in order, and leaves the start states alone |
| Markov.CharMarkovGenerator.PushSuccessor | js/markov.js:22-25 | create-if-absent then push appends one character under the key |
| Markov.CapitalizedPrefix | js/markov.js:45-61 | a capitalised text that begins with a non-empty prefix starts with that prefix, its first character upper-cased |
| Markov.CharMarkovGenerator.Generate | js/markov.js:31-62 | a returned word is at least `minLength` long; with a prefix it starts with that prefix (first character upper-cased) and is no longer than `WalkBound` of the prefix's length; it is its raw text with the first character upper-cased; the raw text starts with the prefix (or the chosen start state); every later character is a listed successor of the last `order` characters before it (of the chosen start for the first one); the length is within `WalkBound`; the walk stopped short of `WalkBound` only at a key with no entry; `StillRetrying` comes out only after a finished walk from the chosen start that was shorter than `minLength`; and a prefix at least `minLength` long always gives a returned word |
| Markov.WordWalk | js/markov.js:105-114 | a finished word walk: it extends the start state's words one listed successor at a time, keyed by the join of the last `order` words (the start state for the first); it stays within `WalkBound` of the start word count and `maxWords`; and it stops short of that bound only at a key with no entry |
| Markov.WordStepsExtend | js/markov.js:106-111 | appending a successor of the current key extends a valid word walk by one step |
| Markov.WordMarkovGenerator.constructor | js/markov.js:70-75 | the new generator has the given order (default 2), holds exactly the tables training on the sentences computes, and for `order > 0` is well formed |
| Markov.WordMarkovGenerator.Train | js/markov.js:77-94 | the fields become exactly the tables computed from the old ones and the sentences, and at a positive order well-formed tables stay well formed |
| Markov.WordMarkovGenerator.TrainSentence | js/markov.js:78-93 | one sentence's callback updates the fields exactly as one training step |
| Markov.WordMarkovGenerator.PushWindows | js/markov.js:84-91 | the inner loop pushes each window's next token under the window's join, in order, and leaves the start states alone |
| Markov.WordMarkovGenerator.PushSuccessor | js/markov.js:87-90 | create-if-absent then push appends one token under the key |
| Markov.WordMarkovGenerator.Generate | js/markov.js:96-123 | with no start states the result is exactly "Not enough data to generate a definition." and nothing is drawn; otherwise the walk starts from a drawn start state split on `' '`, each later word is a listed successor of the join of the last `order` words, the word count is within `WalkBound` and falls short of it only at a key with no entry, and the sentence is the capitalised join that ends with `.`, with a `.` appended exactly when one was missing |
| Markov.WordWalkFromState | js/markov.js:102-116 | from a trained start state the sentence text starts with that state and holds at most `WalkBound(order, maxWords)` words |
| Worker.CharMarkovGenerator.constructor | js/worker.js:5-10 | the copy's constructor holds exactly the tables the original's training computes |
| Worker.CharMarkovGenerator.Train | js/worker.js:11-23 | the copy's `_train` computes the same function of the old tables and the words as the original's |
| Worker.CharMarkovGenerator.TrainWord | js/worker.js:12-22 | the copy's callback is the same training step as the original's |
| Worker.CharMarkovGenerator.PushWindows | js/worker.js:15-20 | the copy's inner loop pushes each window's next character under it, in order |
| Worker.OnMessage | js/worker.js:27-40 | the reply is exactly the order-3 tables trained on the posted words, and they are well formed |
| Upgrade.Adopt | js/main.js:81-85 | the installed generator has order 3 and exactly the reply's `transitions` and `startStates` |
| Upgrade.AdoptedMatchesDirect | js/main.js:79-85 | a generator built from the worker's reply has the same order and tables as one trained directly with order 3 on the same words, and both are well formed |

## Left out

- DOM rendering, `fetch`, the loading queue, sharing, translation and the `db/` scripts are not part of this model. So is the lower-casing of the word list in `js/main.js`: the worker and the generators receive the list as given.
- `postMessage`/`onmessage` transport and the timing of the generator swap are not modelled. The reply is modelled as a value passed from `Worker.OnMessage` to `Upgrade.Adopt`.
- `Math.random()` is the input stream `rand`, not a distribution: no property is probabilistic.
- `toUpperCase` is an abstract one-character map. Upper-casings that change the length (such as `ß` to `SS`) are not modelled.
- JavaScript strings are UTF-16 code units; the model's strings are sequences of Dafny characters. A character outside the Basic Multilingual Plane is two UTF-16 units in JavaScript, so `length`, the `substring` windows, `slice(-order)` and `charAt` can split it in two; the model counts it as one character, so its windows and lengths differ from the code's for such text.
- `transitions` is a plain JavaScript object in the code. Keys that name inherited object properties (such as `"constructor"` or `"toString"`) would be found by `this.transitions[state]` even when never trained. The model's map has no such keys.
- `order`, `minLength`, `maxLength` and `maxWords` are natural numbers. Negative or fractional values are not modelled.
- Markov.CharMarkovGenerator.Generate: the unbounded retry is bounded by `fuel`. When the fuel runs out, the outcome is `StillRetrying`, where the code makes one more recursive call `this.generate(options)`. That call is not a loop: JavaScript engines without proper tail calls (V8 among them) end a long enough chain of retries with a `RangeError` stack overflow, which the model does not represent. The minimum-length guarantee is stated only for a returned word.
- Markov.CharMarkovGenerator.Generate: requires a prefix or at least one start state, because with neither the code throws a `TypeError`.
- Markov.CharMarkovGenerator.Generate and Markov.WordMarkovGenerator.Generate: require every successor list to be non-empty. Trained and adopted tables always are (`CharTraining.TrainWellFormed`, `WordTraining.TrainWellFormed`); the code would append `undefined` otherwise.
- Markov.WordMarkovGenerator.constructor: guarantees the well-formed shape only for `order > 0`. At order 0 every state is the empty join, which does not split into zero pieces.
- Markov.WordMarkovGenerator.Train: keeps the well-formed shape only for `order > 0`, for the same reason.
- `console.log` calls are not modelled.
