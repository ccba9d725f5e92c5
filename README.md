# Forehead guessing game: the round state machine

This project models, in Dafny, the view model behind the game screen of the
ForeheadApp party game (`GameViewModel`). A player holds the phone to their
forehead. The screen shows song titles drawn from a shuffled deck. The player
presses "correct" or "skip", which moves the score up or down by one and draws
the next title. A 60-second countdown runs alongside. It asks for a panic
vibration on every tick once ten seconds or less are left, and it ends the
game when it runs out.

The model has four modules:

- `KotlinInt` (`kotlin_int.dfy`): Kotlin's 32-bit `Int`, whose `plus` and
  `minus` wrap around on overflow. The score is such an `Int`.
- `Slots` (`slots.dfy`): a `MutableLiveData` used as a one-value event slot.
  It is empty until the first write, and every write replaces what it held,
  whether or not the screen has seen it yet (last write wins, nothing queued).
- `Deck` (`deck.dfy`): the fifteen source titles, the shuffle (any
  permutation), what one draw from the deck does, and the facts about
  duplicates.
- `Game` (`game.dfy`): the `BuzzType` cues, the timer constants, and the
  class `GameViewModel`. Its fields are `score`, `song`, `songList`,
  `buzz`, `finished` and `currentTime`, and it has one method per Kotlin
  operation. Two ghost fields carry the proofs. `events` records every call
  since construction. `shown` records the titles drawn since the deck was
  last refilled. The invariant `Valid()` ties the real fields to them.

The score and the three event slots are specified as a fold of `Step` over
the call history (`ObservedAfter`). Every method keeps the fields equal to
that fold, and lemmas prove what the fold means:
- the score is (correct presses − skips) wrapped to an `Int`;
- each slot holds its latest write;
- repeating a timer callback or an acknowledgement changes nothing.

The deck is specified by a pass invariant: the titles shown since the last
refill, followed by the titles still in the deck, form one shuffle of the
source list. A lemma derives from it that no title repeats within a pass.

A `LiveData` field that the Kotlin class leaves without a value (current
time, finish flag, buzz) is an `Option` here, with `None` for "never set".

Where the Kotlin code does something a reader might not expect, the model
follows the code:
- The score is a Kotlin `Int` that wraps at 32 bits, not an unbounded
  integer. `ScoreIsCorrectMinusSkipped` gives the exact N − M whenever that
  difference fits in an `Int`.
- The source list is the fixed literal in `resetList`, not a constructor
  argument. The class holds it in the immutable field `source`, which the
  constructor sets to that literal.
- There is no error path for an empty source list, because the list is fixed
  and non-empty.
- `onCorrect` and `onSkip` have no guard against being called after the game
  has finished, and neither do the methods here.

## Model

| member | source | states |
|---|---|---|
| `Game.GameViewModel.constructor` | app/src/main/java/com/ewam/foreheadapp/screens/game/GameViewModel.kt:64-67 | after construction the score is 0, the current song is one of the 15 source titles, the deck holds the other 14 (song and deck together are the source multiset), no slot has a value yet, and the invariant holds |
| `Game.GameViewModel.Init` | app/src/main/java/com/ewam/foreheadapp/screens/game/GameViewModel.kt:64-67 | the `init` block: refill, draw, score 0; establishes the pass invariant with exactly one title shown and an empty call history |
| `Game.GameViewModel.ResetList` | app/src/main/java/com/ewam/foreheadapp/screens/game/GameViewModel.kt:89-108 | the deck becomes a permutation of the source list (same multiset, same length) and a new pass begins |
| `Game.GameViewModel.NextSong` | app/src/main/java/com/ewam/foreheadapp/screens/game/GameViewModel.kt:111-117 | never fails: a non-empty deck loses its front, which becomes the song; an empty deck is first refilled, and the song plus the new deck are a shuffle of the source; the pass invariant is kept |
| `Game.GameViewModel.OnSkip` | app/src/main/java/com/ewam/foreheadapp/screens/game/GameViewModel.kt:120-123 | score becomes old score − 1 (Int wrap), the next song is drawn, buzz, finish flag and time are unchanged |
| `Game.GameViewModel.OnCorrect` | app/src/main/java/com/ewam/foreheadapp/screens/game/GameViewModel.kt:125-129 | score becomes old score + 1 (Int wrap), buzz becomes `Correct`, the next song is drawn, finish flag and time are unchanged |
| `Game.GameViewModel.OnTick` | app/src/main/java/com/ewam/foreheadapp/screens/game/GameViewModel.kt:72-77 | time becomes the whole seconds left; buzz becomes `CountdownPanic` exactly when that is at most 10, else stays as it was; score, song, deck and finish flag are untouched |
| `Game.GameViewModel.OnFinish` | app/src/main/java/com/ewam/foreheadapp/screens/game/GameViewModel.kt:79-83 | time becomes 0 (`DONE`), the finish flag becomes true, buzz becomes `GameOver`; score, song and deck are untouched |
| `Game.GameViewModel.OnGameFinishComplete` | app/src/main/java/com/ewam/foreheadapp/screens/game/GameViewModel.kt:132-134 | the finish flag becomes false and nothing else changes |
| `Game.GameViewModel.OnBuzzComplete` | app/src/main/java/com/ewam/foreheadapp/screens/game/GameViewModel.kt:141-143 | buzz becomes `NoBuzz` and nothing else changes |
| `Game.SecondsLeft` | app/src/main/java/com/ewam/foreheadapp/screens/game/GameViewModel.kt:72-74 | the seconds shown are the floor of the milliseconds left divided by 1000: s·1000 ≤ ms < (s+1)·1000 |
| `Game.TimeNeverIncreases` | app/src/main/java/com/ewam/foreheadapp/screens/game/GameViewModel.kt:72-83 | over any call history in which the timer callbacks report non-increasing milliseconds, each `onTick`/`onFinish` leaves the time shown at most what it was before |
| `Game.SecondsNeverIncrease` | app/src/main/java/com/ewam/foreheadapp/screens/game/GameViewModel.kt:70-73 | as the timer reports less time left the seconds shown never go up, and within a 60000 ms round they never exceed 60 |
| `Game.PanicWindow` | app/src/main/java/com/ewam/foreheadapp/screens/game/GameViewModel.kt:74-76 | a tick asks for the panic buzz if and only if fewer than 11000 ms are left, and otherwise writes no cue |
| `Game.ScoreIsTally` | app/src/main/java/com/ewam/foreheadapp/screens/game/GameViewModel.kt:120-129 | after any calls since construction the score is (correct presses − skips) wrapped to an Int, whatever the order and whatever other calls are mixed in |
| `Game.ScoreIsCorrectMinusSkipped` | app/src/main/java/com/ewam/foreheadapp/screens/game/GameViewModel.kt:120-129 | on a valid view model, after N corrects and M skips the score is exactly N − M when that fits in an Int |
| `Game.SlotsHoldLastWrite` | app/src/main/java/com/ewam/foreheadapp/screens/game/GameViewModel.kt:72-143 | buzz, finish flag and time after any calls equal the slot fold over those calls: each holds what the calls last wrote into it |
| `Game.PendingCueIsLatest` | app/src/main/java/com/ewam/foreheadapp/screens/game/GameViewModel.kt:72-143 | last write wins on the buzz: the pending cue is the one written by the latest call that wrote a cue, so an unplayed cue is overwritten, not queued |
| `Game.FinishFlagIsLatest` | app/src/main/java/com/ewam/foreheadapp/screens/game/GameViewModel.kt:79-134 | the finish flag is true exactly when the latest call that wrote it was `onFinish`, and false when it was the acknowledgement |
| `Game.RepeatedCallIsIdempotent` | app/src/main/java/com/ewam/foreheadapp/screens/game/GameViewModel.kt:72-143 | calling a timer callback or an acknowledgement twice in a row leaves score and slots as calling it once |
| `Game.NoRepeatWithinPass` | app/src/main/java/com/ewam/foreheadapp/screens/game/GameViewModel.kt:89-117 | within one pass no title repeats: the titles shown and the deck are pairwise distinct, together number 15 (the invariant records the count), and the current song is a source title no longer in the deck |
| `Deck.Shuffle` | app/src/main/java/com/ewam/foreheadapp/screens/game/GameViewModel.kt:107 | the shuffled list is a permutation of its input (same multiset, same length) |
| `Deck.SourceSongsDistinct` | app/src/main/java/com/ewam/foreheadapp/screens/game/GameViewModel.kt:90-106 | the fifteen source titles are pairwise different |
| `Deck.ShuffleKeepsDistinct` | app/src/main/java/com/ewam/foreheadapp/screens/game/GameViewModel.kt:107 | a permutation of a list without repeats has no repeats |
| `Deck.ShuffledSourceIsDistinct` | app/src/main/java/com/ewam/foreheadapp/screens/game/GameViewModel.kt:89-108 | every shuffle of the source list has exactly the 15 source titles, each once |
| `KotlinInt.Wrap` | app/src/main/java/com/ewam/foreheadapp/screens/game/GameViewModel.kt:121 | the wrapped score always lies in the Int range [−2^31, 2^31 − 1] |
| `KotlinInt.WrapAdd` | app/src/main/java/com/ewam/foreheadapp/screens/game/GameViewModel.kt:121-126 | wrapping after each `plus`/`minus` gives the same Int as wrapping the exact sum once |
| `KotlinInt.WrapInRange` | app/src/main/java/com/ewam/foreheadapp/screens/game/GameViewModel.kt:121-126 | an Int result that did not overflow is the exact sum |
| `Slots.LastWriteWins` | app/src/main/java/com/ewam/foreheadapp/screens/game/GameViewModel.kt:56-62 | a slot holds exactly the value of the latest step that wrote it |
| `Slots.LatestWrite` | app/src/main/java/com/ewam/foreheadapp/screens/game/GameViewModel.kt:56-62 | a slot that started empty and now holds a value holds what the latest step that wrote it wrote, and no later step wrote it |
| `Slots.UnwrittenSlotKeepsValue` | app/src/main/java/com/ewam/foreheadapp/screens/game/GameViewModel.kt:56-62 | steps that do not write a slot leave its value alone |

## Left out

- The Android `CountDownTimer` itself is not modelled: its scheduling, `timer.start()`, `timer.cancel()` and `onCleared` (GameViewModel.kt:70, 85, 136-139). It is a platform timer driven by the wall clock. Its two callbacks are the methods `OnTick` and `OnFinish`, which the caller invokes. So the model does not capture that ticks arrive once a second, that they stop after `onFinish`, or that cancellation stops them.
- `SecondsNeverIncrease` relies on the timer reporting non-increasing times no greater than 60000 ms. It is a fact about the callback's argument, not something the view model enforces.
- `LiveData` observation and `currentTimeString` are not modelled (`Transformations.map` with `DateUtils.formatElapsedTime`, GameViewModel.kt:34-40). They are observer plumbing and a library formatting call. The `LiveData` values are plain fields.
- The vibration patterns (`LongArray` constants, GameViewModel.kt:10-13) are hardware timings. The `BuzzType` tag stands for them.
- Deck.Shuffle: states only that the result is some permutation. It makes no claim that the order is random or that every permutation is equally likely, because `MutableList.shuffle()` draws on a random source the model does not have.
- The model is for verification only and is not meant to compile. `Deck.Shuffle` picks its permutation with a ghost choice (`:|` over sequences), which Dafny cannot compile. Every method that shuffles or draws reaches it.
- The `?.` null checks in `onSkip`/`onCorrect` are not modelled, because `init` always sets the score before either can run.
- Game.GameViewModel.Init: requires the state the property initialisers leave (no slot set, no call yet), because the Kotlin `init` block runs only once, right after them. It is a separate method so that the fixed title list is only handled by the constructor.
- Game.GameViewModel.Valid: records that `source` holds fifteen distinct titles, not that it equals the literal list. Equality with the literal is promised by the constructor, which is the only place that sets the `const` field `source`. Keeping the literal out of the invariant keeps it out of every method's proof.
- `ScoreFragment.kt` is not modelled. It is all user interface: view inflation, data binding, navigation arguments and navigation. It has no state logic.
