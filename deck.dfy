/** The song deck of the guessing game: the fixed list of titles that
    `resetList` loads, and the shuffle it applies to them. */
module Deck {

  /** The fifteen titles `resetList` puts in the list, in source order. */
  const SourceSongs: seq<string> := [
    "Californication by Red Hot Chili Peppers",
    "The Queen Is Dead by The Smiths",
    "Wish You Were Here by Pink Floyd",
    "London Calling by The Clash",
    "Back In Black by AC/DC",
    "Smells Like Teen Spirit by Nirvana",
    "Imagine by John Lennon",
    "One by U2",
    "Billie Jean by Michael Jackson",
    "Bohemian Rhapsody by Queen",
    "Hey Jude by The Beatles",
    "Like A Rolling Stone by Bob Dylan",
    "I Can't Get No Satisfaction by Rolling Stones",
    "Wannabe by Spice Girls",
    "Bad Romance by Lady Gaga"
  ]

  /** Number of titles in `SourceSongs`. */
  const SongCount: nat := 15

  /** `s` holds the same titles as `t`, each as often, in some order. */
  predicate IsShuffleOf(s: seq<string>, t: seq<string>) {
    multiset(s) == multiset(t)
  }

  /** No title occurs twice in `s`. */
  predicate Distinct(s: seq<string>) {
    forall i, j :: 0 <= i < j < |s| ==> s[i] != s[j]
  }

  /** `nextSong` on the deck `deck` showed `song` and left `rest`: it took
      the front of the deck, after refilling an empty deck with a fresh
      shuffle of `source`. */
  predicate IsDraw(deck: seq<string>, source: seq<string>, song: string, rest: seq<string>) {
    && (deck != [] ==> song == deck[0] && rest == deck[1..])
    && (deck == [] ==> IsShuffleOf([song] + rest, source))
  }

  /** `MutableList.shuffle()`: the list comes back in an order chosen at
      random; the model allows any permutation. */
  method Shuffle(s: seq<string>) returns (r: seq<string>)
    ensures IsShuffleOf(r, s)
    ensures |r| == |s|
  {
    assert IsShuffleOf(s, s);
    var shuffled :| IsShuffleOf(shuffled, s);
    assert IsShuffleOf(shuffled, s);
    r := shuffled;
    assert |r| == |multiset(r)| == |multiset(s)| == |s|;
  }

  lemma SourceSongsDistinct()
    ensures Distinct(SourceSongs) && |SourceSongs| == SongCount
  {
  }

  /** A title found at two positions is counted twice by the multiset. */
  lemma TwoPositionsCountTwice(s: seq<string>, i: nat, j: nat)
    requires i < j < |s| && s[i] == s[j]
    ensures multiset(s)[s[i]] >= 2
  {
    assert s == s[..j] + s[j..];
    assert s[i] in s[..j];
    assert s[j] in s[j..];
    assert multiset(s) == multiset(s[..j]) + multiset(s[j..]);
  }

  /** Without repeats, every title is counted at most once. */
  lemma {:induction false} DistinctCountsAtMostOnce(s: seq<string>, x: string)
    requires Distinct(s)
    ensures multiset(s)[x] <= 1
    decreases |s|
  {
    if s != [] {
      assert s == [s[0]] + s[1..];
      assert Distinct(s[1..]) by {
        forall i, j | 0 <= i < j < |s[1..]| ensures s[1..][i] != s[1..][j] {
          assert s[1..][i] == s[i + 1] && s[1..][j] == s[j + 1];
        }
      }
      DistinctCountsAtMostOnce(s[1..], x);
      if s[0] == x {
        assert x !in s[1..] by {
          forall j | 0 <= j < |s[1..]| ensures s[1..][j] != x {
            assert s[1..][j] == s[j + 1];
          }
        }
      }
    }
  }

  /** Shuffling a list without repeats gives a list without repeats. */
  lemma ShuffleKeepsDistinct(p: seq<string>, s: seq<string>)
    requires IsShuffleOf(p, s) && Distinct(s)
    ensures Distinct(p)
  {
    forall i, j | 0 <= i < j < |p| ensures p[i] != p[j] {
      if p[i] == p[j] {
        TwoPositionsCountTwice(p, i, j);
        DistinctCountsAtMostOnce(s, p[i]);
      }
    }
  }

  /** Every shuffle of the source list holds the fifteen source titles,
      each exactly once. */
  lemma ShuffledSourceIsDistinct(p: seq<string>)
    requires IsShuffleOf(p, SourceSongs)
    ensures Distinct(p) && |p| == |SourceSongs| == SongCount
    ensures forall x :: x in p <==> x in SourceSongs
  {
    SourceSongsDistinct();
    ShuffleKeepsDistinct(p, SourceSongs);
    assert |p| == |multiset(p)| == |multiset(SourceSongs)| == |SourceSongs|;
    forall x ensures x in p <==> x in SourceSongs {
      assert x in p <==> x in multiset(p);
      assert x in SourceSongs <==> x in multiset(SourceSongs);
    }
  }
}
