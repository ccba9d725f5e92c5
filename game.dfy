/** The round state machine of the guessing game: `GameViewModel`, its
    `BuzzType` cues, the countdown callbacks and the button handlers. */
module Game {
  import opened KotlinInt
  import opened Slots
  import opened Deck

  /** Remaining time shown once the countdown has run out. */
  const Done: int := 0
  /** Tick interval of the countdown, in milliseconds. */
  const OneSecond: nat := 1000
  /** Length of a round, in milliseconds. */
  const CountdownTime: nat := 60000
  /** From this many whole seconds left, every tick asks for a panic buzz. */
  const CountdownPanicSeconds: nat := 10

  /** The vibration cue the screen should play next. */
  datatype BuzzType = Correct | GameOver | CountdownPanic | NoBuzz

  /** Whole seconds left in `millisUntilFinished` (Kotlin `Long` division,
      which for a non-negative operand is floor division). */
  function SecondsLeft(millisUntilFinished: nat): (s: nat)
    ensures s * OneSecond <= millisUntilFinished < (s + 1) * OneSecond
  {
    millisUntilFinished / OneSecond
  }

  /** The countdown reports less and less time left, so the seconds shown
      never go up, and within a round they never exceed sixty. */
  lemma SecondsNeverIncrease(earlier: nat, later: nat)
    requires later <= earlier <= CountdownTime
    ensures SecondsLeft(later) <= SecondsLeft(earlier) <= CountdownTime / OneSecond
  {
  }

  /** The calls that reach the view model, in the order they are
      serialised on the main thread. */
  datatype Event =
    | PressCorrect
    | PressSkip
    | TimerTick(millisUntilFinished: nat)
    | TimerFinish
    | FinishAcknowledged
    | BuzzAcknowledged

  /** What each call writes into `_eventBuzz`, if anything. */
  function BuzzWrite(e: Event): Option<BuzzType>
  {
    match e
    case PressCorrect => Some(Correct)
    case TimerTick(m) =>
      if SecondsLeft(m) <= CountdownPanicSeconds then Some(CountdownPanic) else None
    case TimerFinish => Some(GameOver)
    case BuzzAcknowledged => Some(NoBuzz)
    case _ => None
  }

  /** What each call writes into `_eventGameFinish`, if anything. */
  function FinishWrite(e: Event): Option<bool>
  {
    match e
    case TimerFinish => Some(true)
    case FinishAcknowledged => Some(false)
    case _ => None
  }

  /** What each call writes into `_currentTime`, if anything. */
  function TimeWrite(e: Event): Option<int>
  {
    match e
    case TimerTick(m) => Some(SecondsLeft(m))
    case TimerFinish => Some(Done)
    case _ => None
  }

  /** The observable state other than the deck: the score and the three
      event slots. */
  datatype Observed = Observed(
    score: int,
    buzz: Option<BuzzType>,
    finished: Option<bool>,
    currentTime: Option<int>)

  /** The observable state right after construction: score 0, no slot
      written yet. */
  const Initial: Observed := Observed(0, None, None, None)

  /** The effect of one call on the observable state: a press moves the
      score by one, with `Int` wrap-around, and each slot takes the call's
      write, if it makes one. */
  function Step(o: Observed, e: Event): Observed
  {
    Observed(
      if e == PressCorrect then Wrap(o.score + 1)
      else if e == PressSkip then Wrap(o.score - 1)
      else o.score,
      Overwrite(o.buzz, BuzzWrite(e)),
      Overwrite(o.finished, FinishWrite(e)),
      Overwrite(o.currentTime, TimeWrite(e)))
  }

  /** The observable state after the calls `es`, oldest first, counted
      from construction. */
  function ObservedAfter(es: seq<Event>): Observed
    decreases |es|
  {
    if es == [] then Initial else Step(ObservedAfter(es[..|es| - 1]), es[|es| - 1])
  }

  lemma ObservedAfterAppend(es: seq<Event>, e: Event)
    ensures ObservedAfter(es + [e]) == Step(ObservedAfter(es), e)
  {
    assert (es + [e])[..|es|] == es;
  }

  /** Correct answers minus skips among the calls `es`. */
  function Tally(es: seq<Event>): int
  {
    multiset(es)[PressCorrect] as int - multiset(es)[PressSkip] as int
  }

  /** One more call moves the tally by one for a press, by nothing else. */
  lemma TallyAppend(es: seq<Event>, e: Event)
    ensures Tally(es + [e]) == Tally(es) + (if e == PressCorrect then 1 else if e == PressSkip then -1 else 0)
  {
    assert multiset(es + [e]) == multiset(es) + multiset{e};
  }

  /** After N correct answers and M skips, in any order and mixed with any
      other calls, the score is N - M wrapped to a Kotlin `Int`. */
  lemma {:induction false} ScoreIsTally(es: seq<Event>)
    ensures ObservedAfter(es).score == Wrap(Tally(es))
    decreases |es|
  {
    if es != [] {
      var init, e := es[..|es| - 1], es[|es| - 1];
      assert es == init + [e];
      TallyAppend(init, e);
      ScoreIsTally(init);
      if e == PressCorrect {
        WrapAdd(Tally(init), 1);
      } else if e == PressSkip {
        WrapAdd(Tally(init), -1);
      }
    }
  }

  /** Each of the three slots holds what the calls wrote into it, the latest
      write winning (see `Slots.LastWriteWins`). */
  lemma {:induction false} SlotsHoldLastWrite(es: seq<Event>)
    ensures ObservedAfter(es).buzz == SlotAfter(None, es, BuzzWrite)
    ensures ObservedAfter(es).finished == SlotAfter(None, es, FinishWrite)
    ensures ObservedAfter(es).currentTime == SlotAfter(None, es, TimeWrite)
    decreases |es|
  {
    if es != [] {
      var init, e := es[..|es| - 1], es[|es| - 1];
      assert es == init + [e];
      SlotsHoldLastWrite(init);
      SlotAfterAppend(None, init, e, BuzzWrite);
      SlotAfterAppend(None, init, e, FinishWrite);
      SlotAfterAppend(None, init, e, TimeWrite);
    }
  }

  /** The milliseconds left that a timer callback reports: a tick passes
      them, and the finish stands for none left. */
  function MillisReported(e: Event): nat
  {
    if e.TimerTick? then e.millisUntilFinished else 0
  }

  /** The timer callbacks among `es` report less and less time left. */
  ghost predicate CountsDown(es: seq<Event>)
  {
    forall i, j :: 0 <= i < j < |es| && TimeWrite(es[i]).Some? && TimeWrite(es[j]).Some?
      ==> MillisReported(es[j]) <= MillisReported(es[i])
  }

  /** While the countdown reports less and less time left, the time shown
      never goes up: a timer callback shows at most the seconds shown before
      it. */
  lemma TimeNeverIncreases(es: seq<Event>, e: Event)
    requires CountsDown(es + [e])
    requires TimeWrite(e).Some? && ObservedAfter(es).currentTime.Some?
    ensures ObservedAfter(es + [e]).currentTime.Some?
    ensures ObservedAfter(es + [e]).currentTime.value <= ObservedAfter(es).currentTime.value
  {
    SlotsHoldLastWrite(es);
    var k := LatestWrite(es, TimeWrite);
    assert (es + [e])[k] == es[k] && (es + [e])[|es|] == e;
    ObservedAfterAppend(es, e);
    var earlier, later := MillisReported(es[k]), MillisReported(e);
    assert TimeWrite(es[k]) == Some(SecondsLeft(earlier));
    assert TimeWrite(e) == Some(SecondsLeft(later));
  }

  /** A tick asks for the panic buzz exactly when less than eleven seconds
      (11000 ms) are left, and writes no cue otherwise. */
  lemma PanicWindow(millisUntilFinished: nat)
    ensures BuzzWrite(TimerTick(millisUntilFinished)).Some?
        <==> millisUntilFinished < (CountdownPanicSeconds + 1) * OneSecond
    ensures BuzzWrite(TimerTick(millisUntilFinished)).Some?
        ==> BuzzWrite(TimerTick(millisUntilFinished)) == Some(CountdownPanic)
  {
    var s := SecondsLeft(millisUntilFinished);
    if s <= CountdownPanicSeconds {
      assert millisUntilFinished < (s + 1) * OneSecond <= (CountdownPanicSeconds + 1) * OneSecond;
    } else {
      assert (CountdownPanicSeconds + 1) * OneSecond <= s * OneSecond <= millisUntilFinished;
    }
  }

  /** Calling any timer callback or acknowledgement twice in a row leaves the
      score and every slot as calling it once; only the two presses are not
      idempotent. */
  lemma RepeatedCallIsIdempotent(es: seq<Event>, e: Event)
    requires e != PressCorrect && e != PressSkip
    ensures ObservedAfter(es + [e, e]) == ObservedAfter(es + [e])
  {
    assert es + [e, e] == (es + [e]) + [e];
    ObservedAfterAppend(es + [e], e);
    ObservedAfterAppend(es, e);
  }

  /** The view model of the game screen. Every field the Kotlin class keeps
      in a `LiveData` is a plain field here; a slot that was never written
      holds `None`. */
  class GameViewModel {
    var score: int
    var song: string
    var songList: seq<string>
    var buzz: Option<BuzzType>
    var finished: Option<bool>
    var currentTime: Option<int>
    /** The titles `resetList` loads: the fixed source list. */
    const source: seq<string>

    /** Every call since construction, oldest first. */
    ghost var events: seq<Event>
    /** The songs drawn since the deck was last refilled, oldest first. */
    ghost var shown: seq<string>

    /** The songs drawn in this pass and the songs still in the deck make up
        one shuffle of the source list. */
    ghost predicate PassValid()
      reads this`shown, this`songList
    {
      source != [] && IsShuffleOf(shown + songList, source)
    }

    /** ... and the song on screen is the one drawn last. */
    ghost predicate DeckValid()
      reads this`shown, this`songList, this`song
    {
      PassValid() && shown != [] && song == shown[|shown| - 1]
    }

    /** The score and the three slots, as one value. */
    ghost function Snapshot(): Observed
      reads this`score, this`buzz, this`finished, this`currentTime
    {
      Observed(score, buzz, finished, currentTime)
    }

    ghost predicate Valid()
      reads this
    {
      && DeckValid()
      && |source| == SongCount
      && Distinct(source)
      && Snapshot() == ObservedAfter(events)
    }

    /** Construction: the property initialisers, which leave every
        `LiveData` without a value, then the `init` block. */
    constructor ()
      ensures Valid() && events == [] && source == SourceSongs
      ensures score == 0
      ensures song in source && |songList| == |source| - 1
      ensures multiset(songList) + multiset{song} == multiset(source)
      ensures buzz == None && finished == None && currentTime == None
    {
      source := SourceSongs;
      score, song, songList := 0, "", [];
      buzz, finished, currentTime := None, None, None;
      events, shown := [], [];
      new;
      SourceSongsDistinct();
      Init();
    }

    /** The `init` block: fill and shuffle the deck, draw the first song, set
        the score to 0. Starting the countdown is left to the caller, which
        then delivers its callbacks through `OnTick` and `OnFinish`. */
    method Init()
      requires |source| == SongCount && Distinct(source)
      requires events == []
      requires buzz == None && finished == None && currentTime == None
      modifies this
      ensures Valid() && events == []
      ensures score == 0
      ensures song in source && |songList| == |source| - 1
      ensures multiset(songList) + multiset{song} == multiset(source)
      ensures buzz == None && finished == None && currentTime == None
    {
      ResetList();
      NextSong();
      score := 0;
      assert shown + songList == [song] + songList;
      assert |songList| + 1 == |multiset(shown + songList)| == |multiset(source)| == |source|;
      assert song in multiset(source);
    }

    /** `resetList`: load the fifteen source titles and shuffle them. */
    method ResetList()
      modifies this`songList, this`shown
      ensures IsShuffleOf(songList, source) && |songList| == |source|
      ensures shown == []
    {
      songList := source;
      songList := Shuffle(songList);
      shown := [];
    }

    /** `nextSong`: refill the deck if it is empty, then remove its front and
        show it. */
    method NextSong()
      requires PassValid()
      modifies this`song, this`songList, this`shown
      ensures DeckValid()
      ensures IsDraw(old(songList), source, song, songList)
      ensures shown == (if old(songList) == [] then [] else old(shown)) + [song]
    {
      if songList == [] {
        ResetList();
      }
      ghost var pass := shown + songList;
      assert pass == (shown + [songList[0]]) + songList[1..];
      song := songList[0];
      songList := songList[1..];
      shown := shown + [song];
      assert shown + songList == pass;
    }

    /** `onSkip`: one point off, next song; the buzz is left as it was. */
    method OnSkip()
      requires Valid()
      modifies this
      ensures Valid() && events == old(events) + [PressSkip]
      ensures score == Wrap(old(score) - 1)
      ensures IsDraw(old(songList), source, song, songList)
      ensures buzz == old(buzz) && finished == old(finished) && currentTime == old(currentTime)
    {
      ghost var before, history := Snapshot(), events;
      score := Wrap(score - 1);
      NextSong();
      events := events + [PressSkip];
      assert Snapshot() == Step(before, PressSkip);
      ObservedAfterAppend(history, PressSkip);
    }

    /** `onCorrect`: one point more, the correct buzz, next song. */
    method OnCorrect()
      requires Valid()
      modifies this
      ensures Valid() && events == old(events) + [PressCorrect]
      ensures score == Wrap(old(score) + 1)
      ensures buzz == Some(Correct)
      ensures IsDraw(old(songList), source, song, songList)
      ensures finished == old(finished) && currentTime == old(currentTime)
    {
      ghost var before, history := Snapshot(), events;
      score := Wrap(score + 1);
      buzz := Some(Correct);
      NextSong();
      events := events + [PressCorrect];
      assert Snapshot() == Step(before, PressCorrect);
      ObservedAfterAppend(history, PressCorrect);
    }

    /** The timer's `onTick`: show the whole seconds left and, inside the
        panic window, ask for the panic buzz. */
    method OnTick(millisUntilFinished: nat)
      requires Valid()
      modifies this
      ensures Valid() && events == old(events) + [TimerTick(millisUntilFinished)]
      ensures currentTime == Some(SecondsLeft(millisUntilFinished))
      ensures buzz == if SecondsLeft(millisUntilFinished) <= CountdownPanicSeconds
                      then Some(CountdownPanic) else old(buzz)
      ensures score == old(score) && finished == old(finished)
      ensures song == old(song) && songList == old(songList) && shown == old(shown)
    {
      ghost var before, history := Snapshot(), events;
      currentTime := Some(millisUntilFinished / OneSecond);
      if millisUntilFinished / OneSecond <= CountdownPanicSeconds {
        buzz := Some(CountdownPanic);
      }
      events := events + [TimerTick(millisUntilFinished)];
      assert Snapshot() == Step(before, TimerTick(millisUntilFinished));
      ObservedAfterAppend(history, TimerTick(millisUntilFinished));
    }

    /** The timer's `onFinish`: time is up, the game is over. */
    method OnFinish()
      requires Valid()
      modifies this
      ensures Valid() && events == old(events) + [TimerFinish]
      ensures currentTime == Some(Done) && finished == Some(true) && buzz == Some(GameOver)
      ensures score == old(score)
      ensures song == old(song) && songList == old(songList) && shown == old(shown)
    {
      ghost var before, history := Snapshot(), events;
      currentTime := Some(Done);
      finished := Some(true);
      buzz := Some(GameOver);
      events := events + [TimerFinish];
      assert Snapshot() == Step(before, TimerFinish);
      ObservedAfterAppend(history, TimerFinish);
    }

    /** `onGameFinishComplete`: the screen has handled the end of the game. */
    method OnGameFinishComplete()
      requires Valid()
      modifies this
      ensures Valid() && events == old(events) + [FinishAcknowledged]
      ensures finished == Some(false)
      ensures score == old(score) && buzz == old(buzz) && currentTime == old(currentTime)
      ensures song == old(song) && songList == old(songList) && shown == old(shown)
    {
      ghost var before, history := Snapshot(), events;
      finished := Some(false);
      events := events + [FinishAcknowledged];
      assert Snapshot() == Step(before, FinishAcknowledged);
      ObservedAfterAppend(history, FinishAcknowledged);
    }

    /** `onBuzzComplete`: the screen has played the buzz. */
    method OnBuzzComplete()
      requires Valid()
      modifies this
      ensures Valid() && events == old(events) + [BuzzAcknowledged]
      ensures buzz == Some(NoBuzz)
      ensures score == old(score) && finished == old(finished) && currentTime == old(currentTime)
      ensures song == old(song) && songList == old(songList) && shown == old(shown)
    {
      ghost var before, history := Snapshot(), events;
      buzz := Some(NoBuzz);
      events := events + [BuzzAcknowledged];
      assert Snapshot() == Step(before, BuzzAcknowledged);
      ObservedAfterAppend(history, BuzzAcknowledged);
    }
  }

  /** Within one pass through the deck no song comes up twice: the fifteen
      titles are split between those shown and those still in the deck, and
      the song on screen is a source title no longer in the deck. */
  lemma NoRepeatWithinPass(g: GameViewModel)
    requires g.Valid()
    ensures Distinct(g.shown + g.songList)
    ensures |g.shown| + |g.songList| == |g.source| == SongCount
    ensures g.song in g.source && g.song !in g.songList
  {
    var p := g.shown + g.songList;
    ShuffleKeepsDistinct(p, g.source);
    assert |p| == |multiset(p)| == |multiset(g.source)| == |g.source|;
    assert g.song in multiset(p);
    var k := |g.shown| - 1;
    assert p[k] == g.song;
    assert g.song in p;
    forall j | 0 <= j < |g.songList| ensures g.songList[j] != g.song {
      assert g.songList[j] == p[|g.shown| + j];
    }
  }

  /** After N correct answers and M skips since construction the score is
      N - M, as long as that difference fits in a Kotlin `Int`. */
  lemma ScoreIsCorrectMinusSkipped(g: GameViewModel)
    requires g.Valid()
    requires InRange(Tally(g.events))
    ensures g.score == multiset(g.events)[PressCorrect] as int - multiset(g.events)[PressSkip] as int
  {
    ScoreIsTally(g.events);
    WrapInRange(Tally(g.events));
  }

  /** Last write wins on the buzz slot: the pending cue is the one written
      by the latest call that wrote one, whatever earlier calls asked for and
      whether or not the screen played it. */
  lemma PendingCueIsLatest(g: GameViewModel, k: nat)
    requires g.Valid()
    requires k < |g.events| && BuzzWrite(g.events[k]).Some?
    requires forall j :: k < j < |g.events| ==> BuzzWrite(g.events[j]).None?
    ensures g.buzz == BuzzWrite(g.events[k])
  {
    SlotsHoldLastWrite(g.events);
    LastWriteWins(None, g.events, BuzzWrite, k);
  }

  /** The finish flag is true only while the latest call that wrote it was
      the timer's `onFinish`, and false only after an acknowledgement. */
  lemma FinishFlagIsLatest(g: GameViewModel, k: nat)
    requires g.Valid()
    requires k < |g.events| && FinishWrite(g.events[k]).Some?
    requires forall j :: k < j < |g.events| ==> FinishWrite(g.events[j]).None?
    ensures g.finished == Some(g.events[k] == TimerFinish)
  {
    SlotsHoldLastWrite(g.events);
    LastWriteWins(None, g.events, FinishWrite, k);
  }
}
