/**
 * The now-playing queue of the Zune MediaManager: a list of songs and the
 * index of the current one, kept pointing at the same song as the list is
 * edited, shuffled and stepped through.
 *
 * Each operation is specified by a function from the old list and index to a
 * `Change`: the new list, the new index, the calls made on the media player
 * and how the operation ended (a C# exception becomes `Fail`).  The class
 * `MediaManager` performs the same steps on its fields.
 */
module MediaQueue {
  import opened Wrappers

  /** A call the manager makes on the media player. */
  datatype PlayerCall<S> = Play(song: S) | Stop

  /** The media player's state, read by the CurrentIndex setter. */
  datatype MediaState = Stopped | Playing | Paused

  /** The outcome of one operation on the queue. */
  datatype Change<S> = Change(songs: seq<S>, index: int, calls: seq<PlayerCall<S>>, outcome: Outcome)

  /** The index points at a song, or is -1 for "no current song". */
  predicate InRange<S>(songs: seq<S>, index: int) {
    -1 <= index < |songs|
  }

  /**
   * CurrentSong: null for a negative index, the song at the index, or the
   * collection's out-of-range exception.
   */
  function Current<S>(songs: seq<S>, index: int): (r: Result<Option<S>>)
    ensures r == Success(None) <==> index < 0
    ensures r.Failure? <==> index >= |songs|
    ensures r.Failure? ==> r.error == ArgumentOutOfRange
    ensures r.Success? && r.value.Some? ==> 0 <= index < |songs| && r.value.value == songs[index]
  {
    if index < 0 then Success(None)
    else if index < |songs| then Success(Some(songs[index]))
    else Failure(ArgumentOutOfRange)
  }

  /**
   * InsertSong: a null song is refused; otherwise the index moves up when the
   * song goes in at or before it, and then the collection inserts, which
   * throws for a position outside 0..Count (after the index has moved).
   */
  function Inserted<S>(songs: seq<S>, index: int, s: Option<S>, at: int): (r: Change<S>)
    ensures r.calls == []
    ensures r.outcome == Pass <==> s.Some? && 0 <= at <= |songs|
    ensures s.None? ==> r.outcome == Fail(ArgumentNull) && r.songs == songs && r.index == index
    ensures r.outcome == Pass ==>
      |r.songs| == |songs| + 1 && r.songs[at] == s.value &&
      multiset(r.songs) == multiset(songs) + multiset{s.value}
    ensures r.outcome == Pass ==> Current(r.songs, r.index) == Current(songs, index)
    ensures r.outcome == Pass && InRange(songs, index) ==> InRange(r.songs, r.index)
  {
    if s.None? then Change(songs, index, [], Fail(ArgumentNull))
    else
      var shifted := if at <= index then index + 1 else index;
      if at < 0 || at > |songs| then Change(songs, shifted, [], Fail(ArgumentOutOfRange))
      else
        assert songs == songs[..at] + songs[at..];
        Change(songs[..at] + [s.value] + songs[at..], shifted, [], Pass)
  }

  /** Inserting a batch of songs one by one at consecutive positions. */
  function InsertedAll<S>(songs: seq<S>, index: int, batch: seq<S>, at: int): Change<S>
    decreases |batch|
  {
    if batch == [] then Change(songs, index, [], Pass)
    else
      var first := Inserted(songs, index, Some(batch[0]), at);
      if first.outcome.Fail? then first
      else InsertedAll(first.songs, first.index, batch[1..], at + 1)
  }

  /**
   * Inserting a batch at a position inside the list puts its songs there in
   * their order and keeps the current song; a position outside fails unless
   * the batch is empty.  No player call is made.
   */
  lemma {:induction false} InsertedAllPlaces<S>(songs: seq<S>, index: int, batch: seq<S>, at: int)
    ensures var r := InsertedAll(songs, index, batch, at);
      r.calls == [] &&
      (r.outcome == Pass <==> batch == [] || 0 <= at <= |songs|) &&
      (r.outcome == Pass && 0 <= at <= |songs| ==> r.songs == songs[..at] + batch + songs[at..]) &&
      (r.outcome == Pass ==> Current(r.songs, r.index) == Current(songs, index))
    decreases |batch|
  {
    if batch != [] {
      var first := Inserted(songs, index, Some(batch[0]), at);
      if first.outcome == Pass {
        InsertedAllPlaces(first.songs, first.index, batch[1..], at + 1);
        assert first.songs[..at + 1] == songs[..at] + [batch[0]];
        assert first.songs[at + 1..] == songs[at..];
        assert [batch[0]] + batch[1..] == batch;
      }
    }
  }

  /**
   * NextSong: before the last song the index moves on by one and the song it
   * leaves is played (the post-increment); otherwise the index goes back to 0
   * and the first song is played when repeating, else the player stops.
   */
  function Advanced<S>(songs: seq<S>, index: int, repeating: bool): (r: Change<S>)
    ensures r.songs == songs
    ensures r.index == if index < |songs| - 1 then index + 1 else 0
    ensures r.outcome.Fail? <==>
      (index < |songs| - 1 && index < 0) || (index >= |songs| - 1 && repeating && |songs| == 0)
    ensures r.outcome.Fail? ==> r.outcome.error == ArgumentOutOfRange
    ensures 0 <= index < |songs| - 1 ==> r.calls == [Play(songs[index])]
    ensures index >= |songs| - 1 && !repeating ==> r.calls == [Stop]
    ensures index >= |songs| - 1 && repeating && |songs| > 0 ==> r.calls == [Play(songs[0])]
  {
    if index < |songs| - 1 then
      if index < 0 then Change(songs, index + 1, [], Fail(ArgumentOutOfRange))
      else Change(songs, index + 1, [Play(songs[index])], Pass)
    else if repeating then
      if |songs| == 0 then Change(songs, 0, [], Fail(ArgumentOutOfRange))
      else Change(songs, 0, [Play(songs[0])], Pass)
    else Change(songs, 0, [Stop], Pass)
  }

  /**
   * PreviousSong: the index moves back by one, wrapping below 0 to the last
   * song, and the song there is played.
   */
  function Retreated<S>(songs: seq<S>, index: int): (r: Change<S>)
    ensures r.songs == songs
    ensures r.index == if index - 1 < 0 then |songs| - 1 else index - 1
    ensures r.outcome == Pass <==> 0 <= r.index < |songs|
    ensures r.outcome.Fail? ==> r.outcome.error == ArgumentOutOfRange && r.calls == []
    ensures r.outcome == Pass ==> r.calls == [Play(songs[r.index])]
    ensures InRange(songs, index) && songs != [] ==> r.outcome == Pass
  {
    var back := index - 1;
    var back := if back < 0 then |songs| - 1 else back;
    if 0 <= back < |songs| then Change(songs, back, [Play(songs[back])], Pass)
    else Change(songs, back, [], Fail(ArgumentOutOfRange))
  }

  /**
   * RemoveSong: removing the current song first advances as NextSong does;
   * the index then moves down when the removed position is before it; the
   * collection removes, which throws for a position outside the list; an
   * emptied list has index -1 and stops the player.
   */
  function Removed<S>(songs: seq<S>, index: int, repeating: bool, at: int): (r: Change<S>)
    ensures r.outcome == Pass <==> 0 <= at < |songs|
    ensures r.outcome.Fail? ==> r.outcome.error == ArgumentOutOfRange && r.songs == songs
    ensures r.outcome == Pass ==> r.songs == songs[..at] + songs[at + 1..]
    ensures r.outcome == Pass && InRange(songs, index) ==> InRange(r.songs, r.index)
    ensures r.outcome == Pass && r.songs == [] ==> r.index == -1
    ensures r.outcome == Pass && at != index && InRange(songs, index) ==>
      Current(r.songs, r.index) == Current(songs, index)
    ensures r.outcome == Pass && at == index && at < |songs| - 1 ==>
      Current(r.songs, r.index) == Success(Some(songs[at + 1]))
  {
    var moved := if at == index then Advanced(songs, index, repeating) else Change(songs, index, [], Pass);
    if moved.outcome.Fail? then moved
    else
      var shifted := if at < moved.index then moved.index - 1 else moved.index;
      if at < 0 || at >= |songs| then Change(songs, shifted, moved.calls, Fail(ArgumentOutOfRange))
      else if |songs| - 1 < 1 then Change(songs[..at] + songs[at + 1..], -1, moved.calls + [Stop], Pass)
      else Change(songs[..at] + songs[at + 1..], shifted, moved.calls, Pass)
  }

  /**
   * The CurrentIndex setter: a value at or past the end throws; a value
   * below -1 is taken as -1; then the player stops (no song, or paused) or
   * plays the newly current song.
   */
  function Selected<S>(songs: seq<S>, index: int, value: int, state: MediaState): (r: Change<S>)
    ensures r.songs == songs
    ensures r.outcome.Fail? <==> value >= |songs|
    ensures r.outcome.Fail? ==> r.outcome.error == ArgumentOutOfRange && r.index == index && r.calls == []
    ensures r.outcome == Pass ==> InRange(songs, r.index) && r.index == (if value < -1 then -1 else value)
    ensures r.outcome == Pass && (r.index < 0 || state == Paused) ==> r.calls == [Stop]
    ensures r.outcome == Pass && 0 <= r.index && state != Paused ==>
      Current(songs, r.index).Success? && r.calls == [Play(songs[r.index])]
  {
    if value >= |songs| then Change(songs, index, [], Fail(ArgumentOutOfRange))
    else
      var v := if value < -1 then -1 else value;
      if v < 0 || state == Paused then Change(songs, v, [Stop], Pass)
      else Change(songs, v, [Play(songs[v])], Pass)
  }

  /** The position of the first occurrence of `s`, or -1 (Collection.IndexOf). */
  function IndexOf<S(==)>(songs: seq<S>, s: S): (r: int)
    ensures -1 <= r < |songs|
    ensures r == -1 <==> s !in songs
    ensures 0 <= r ==> songs[r] == s && s !in songs[..r]
  {
    if songs == [] then -1
    else if songs[0] == s then 0
    else
      var k := IndexOf(songs[1..], s);
      assert songs == [songs[0]] + songs[1..];
      if k < 0 then -1 else k + 1
  }

  /** The list with every occurrence of `s` dropped, the others kept in order. */
  function Without<S(==)>(songs: seq<S>, s: S): (r: seq<S>)
    ensures s !in r
    ensures |r| <= |songs|
  {
    if songs == [] then []
    else
      assert songs == [songs[0]] + songs[1..];
      (if songs[0] == s then [] else [songs[0]]) + Without(songs[1..], s)
  }

  /** Every song other than `s` is kept as often as it occurs. */
  lemma {:induction false} WithoutKeepsOthers<S>(songs: seq<S>, s: S, x: S)
    requires x != s
    ensures multiset(Without(songs, s))[x] == multiset(songs)[x]
  {
    if songs != [] {
      WithoutKeepsOthers(songs[1..], s, x);
      assert songs == [songs[0]] + songs[1..];
    }
  }

  /** Removing one occurrence of `s` does not change what remains without `s`. */
  lemma {:induction false} WithoutRemoveAt<S>(songs: seq<S>, s: S, at: int)
    requires 0 <= at < |songs| && songs[at] == s
    ensures Without(songs[..at] + songs[at + 1..], s) == Without(songs, s)
    decreases at
  {
    var rest := songs[1..];
    assert songs == [songs[0]] + rest;
    if at == 0 {
      assert songs[..at] + songs[at + 1..] == rest;
    } else {
      var left := songs[..at] + songs[at + 1..];
      assert left == [songs[0]] + (rest[..at - 1] + rest[at..]);
      assert left[0] == songs[0] && left[1..] == rest[..at - 1] + rest[at..];
      WithoutRemoveAt(rest, s, at - 1);
    }
  }

  /** A list without `s` is its own filtered version. */
  lemma {:induction false} WithoutAbsent<S>(songs: seq<S>, s: S)
    requires s !in songs
    ensures Without(songs, s) == songs
  {
    if songs != [] {
      assert songs[0] != s;
      WithoutAbsent(songs[1..], s);
      assert songs == [songs[0]] + songs[1..];
    }
  }

  /** Removing a song that was just inserted restores the list and the index. */
  lemma RemoveUndoesInsert<S>(songs: seq<S>, index: int, s: S, at: int, repeating: bool)
    requires 0 <= at <= |songs| && InRange(songs, index)
    ensures var i := Inserted(songs, index, Some(s), at);
      var r := Removed(i.songs, i.index, repeating, at);
      r.outcome == Pass && r.songs == songs && r.index == index
  {
    var i := Inserted(songs, index, Some(s), at);
    assert i.songs == songs[..at] + [s] + songs[at..];
    assert i.songs[..at] + i.songs[at + 1..] == songs;
    assert i.index != at;
  }

  /** PreviousSong undoes NextSong before the last song. */
  lemma PreviousUndoesNext<S>(songs: seq<S>, index: int, repeating: bool)
    requires 0 <= index < |songs| - 1
    ensures var n := Advanced(songs, index, repeating);
      Retreated(n.songs, n.index).index == index
  {
  }

  /** NextSong undoes PreviousSong for every song in the list, wrapping at both ends. */
  lemma NextUndoesPrevious<S>(songs: seq<S>, index: int, repeating: bool)
    requires 0 <= index < |songs|
    ensures var p := Retreated(songs, index);
      p.outcome == Pass && Advanced(p.songs, p.index, repeating).index == index
  {
  }

  /**
   * One swap of ShuffleTracks keeps the songs and, with the index following
   * its song, the current song.
   */
  lemma SwapFollows<S>(songs: seq<S>, index: int, i: int, j: int)
    requires 0 <= i < |songs| && 0 <= j < |songs| && i != j
    ensures var moved := if i == index then j else if j == index then i else index;
      var swapped := songs[i := songs[j]][j := songs[i]];
      multiset(swapped) == multiset(songs) &&
      Current(swapped, moved) == Current(songs, index) &&
      (!(0 <= index < |songs|) ==> moved == index)
  {
  }

  /**
   * ShuffleTracks from position `i` on, with the random generator's draws as
   * `draws`: position i is skipped when its draw is i, and otherwise trades
   * songs with the drawn position while the index follows its song.
   */
  function Shuffled<S>(songs: seq<S>, index: int, draws: seq<int>, i: nat): (r: Change<S>)
    requires i <= |songs| == |draws|
    requires forall k :: 0 <= k < |draws| ==> 0 <= draws[k] < |songs|
    ensures |r.songs| == |songs| && r.calls == [] && r.outcome == Pass
    decreases |songs| - i
  {
    if i == |songs| then Change(songs, index, [], Pass)
    else
      var j := draws[i];
      if j == i then Shuffled(songs, index, draws, i + 1)
      else
        var moved := if i == index then j else if j == index then i else index;
        Shuffled(songs[i := songs[j]][j := songs[i]], moved, draws, i + 1)
  }

  /**
   * A shuffle keeps the songs as a multiset and the current song, and leaves
   * an index outside the list where it was.
   */
  lemma {:induction false} ShuffledKeeps<S>(songs: seq<S>, index: int, draws: seq<int>, i: nat)
    requires i <= |songs| == |draws|
    requires forall k :: 0 <= k < |draws| ==> 0 <= draws[k] < |songs|
    ensures var r := Shuffled(songs, index, draws, i);
      multiset(r.songs) == multiset(songs) &&
      Current(r.songs, r.index) == Current(songs, index) &&
      (!(0 <= index < |songs|) ==> r.index == index)
    decreases |songs| - i
  {
    if i < |songs| {
      var j := draws[i];
      if j == i {
        ShuffledKeeps(songs, index, draws, i + 1);
      } else {
        var moved := if i == index then j else if j == index then i else index;
        var swapped := songs[i := songs[j]][j := songs[i]];
        assert Shuffled(songs, index, draws, i) == Shuffled(swapped, moved, draws, i + 1);
        SwapFollows(songs, index, i, j);
        ShuffledKeeps(swapped, moved, draws, i + 1);
      }
    }
  }

  /**
   * Remove(song): RemoveSong at the first occurrence of `song` until none is
   * left, collecting the player calls each removal makes.
   */
  function RemovedAll<S(==)>(songs: seq<S>, index: int, repeating: bool, song: S): (r: Change<S>)
    decreases |songs|
  {
    var at := IndexOf(songs, song);
    if at < 0 then Change(songs, index, [], Pass)
    else
      var step := Removed(songs, index, repeating, at);
      var rest := RemovedAll(step.songs, step.index, repeating, song);
      Change(rest.songs, rest.index, step.calls + rest.calls, rest.outcome)
  }

  /** Removing every occurrence leaves the list without the song and never fails. */
  lemma {:induction false} RemovedAllWithout<S>(songs: seq<S>, index: int, repeating: bool, song: S)
    ensures var r := RemovedAll(songs, index, repeating, song);
      r.outcome == Pass && r.songs == Without(songs, song)
    decreases |songs|
  {
    var at := IndexOf(songs, song);
    if at < 0 {
      WithoutAbsent(songs, song);
    } else {
      var step := Removed(songs, index, repeating, at);
      RemovedAllWithout(step.songs, step.index, repeating, song);
      WithoutRemoveAt(songs, song, at);
    }
  }

  /**
   * What removing occurrences of `song` from (songs0, index0) keeps: the list
   * without `song`, an index in range, and a current song other than `song`.
   */
  ghost predicate Kept<S>(songs0: seq<S>, index0: int, songs: seq<S>, index: int, song: S) {
    Without(songs, song) == Without(songs0, song) &&
    (InRange(songs0, index0) ==> InRange(songs, index)) &&
    (InRange(songs0, index0) && Current(songs0, index0) != Success(Some(song)) ==>
       Current(songs, index) == Current(songs0, index0))
  }

  /** RemoveSong on an occurrence of `song` keeps what Kept describes and shortens the list. */
  lemma RemoveOccurrence<S>(songs0: seq<S>, index0: int, songs: seq<S>, index: int, repeating: bool, song: S, at: int)
    requires 0 <= at < |songs| && songs[at] == song
    requires Kept(songs0, index0, songs, index, song)
    ensures var r := Removed(songs, index, repeating, at);
      r.outcome == Pass && |r.songs| < |songs| && Kept(songs0, index0, r.songs, r.index, song)
  {
    WithoutRemoveAt(songs, song, at);
  }

  /** Every removal of an occurrence keeps what Kept describes, so the whole of Remove(song) does. */
  lemma {:induction false} RemovedAllKept<S>(songs0: seq<S>, index0: int, songs: seq<S>, index: int, repeating: bool, song: S)
    requires Kept(songs0, index0, songs, index, song)
    ensures var r := RemovedAll(songs, index, repeating, song);
      Kept(songs0, index0, r.songs, r.index, song)
    decreases |songs|
  {
    var at := IndexOf(songs, song);
    if at >= 0 {
      RemoveOccurrence(songs0, index0, songs, index, repeating, song, at);
      var step := Removed(songs, index, repeating, at);
      RemovedAllKept(songs0, index0, step.songs, step.index, repeating, song);
    }
  }

  /**
   * Midway through Remove(song), started from calls `calls0`: what is left
   * to do, from (songs, index) with `calls` made so far, ends in `goal`.
   */
  ghost predicate RemovalLeft<S>(goal: Change<S>, calls0: seq<PlayerCall<S>>, songs: seq<S>, index: int,
                                 calls: seq<PlayerCall<S>>, repeating: bool, song: S) {
    var rest := RemovedAll(songs, index, repeating, song);
    rest.songs == goal.songs && rest.index == goal.index && calls + rest.calls == calls0 + goal.calls
  }

  /** One removal of the first occurrence moves its calls from what is left to what was made. */
  lemma RemovalStep<S>(goal: Change<S>, calls0: seq<PlayerCall<S>>, songs: seq<S>, index: int,
                       calls: seq<PlayerCall<S>>, repeating: bool, song: S, at: int)
    requires at == IndexOf(songs, song) && at >= 0
    requires RemovalLeft(goal, calls0, songs, index, calls, repeating, song)
    ensures var step := Removed(songs, index, repeating, at);
      RemovalLeft(goal, calls0, step.songs, step.index, calls + step.calls, repeating, song)
  {
    var step := Removed(songs, index, repeating, at);
    var rest := RemovedAll(step.songs, step.index, repeating, song);
    CallsAssoc(calls, step.calls, rest.calls);
  }

  lemma CallsAssoc<S>(a: seq<PlayerCall<S>>, b: seq<PlayerCall<S>>, c: seq<PlayerCall<S>>)
    ensures a + (b + c) == (a + b) + c
  {
  }

  /** Once the song is absent, nothing is left to do. */
  lemma RemovalEnd<S>(goal: Change<S>, calls0: seq<PlayerCall<S>>, songs: seq<S>, index: int,
                      calls: seq<PlayerCall<S>>, repeating: bool, song: S)
    requires IndexOf(songs, song) < 0
    requires RemovalLeft(goal, calls0, songs, index, calls, repeating, song)
    ensures songs == goal.songs && index == goal.index && calls == calls0 + goal.calls
  {
    assert calls + [] == calls;
  }

  class MediaManager<S(==)> {
    var nowPlaying: seq<S>
    var songIndex: int
    /** The Loop property. */
    var repeating: bool
    /** The calls made on the media player so far. */
    ghost var calls: seq<PlayerCall<S>>

    /** Copies the player's queue and its active index, unless the queue is empty. */
    constructor(queue: seq<S>, activeIndex: int)
      ensures nowPlaying == (if |queue| < 1 then [] else queue)
      ensures songIndex == (if |queue| < 1 then -1 else activeIndex)
      ensures !repeating && calls == []
    {
      var copied: seq<S> := [];
      var active := -1;
      if |queue| >= 1 {
        var i := 0;
        while i < |queue|
          invariant 0 <= i <= |queue| && copied == queue[..i]
        {
          copied := copied + [queue[i]];
          i := i + 1;
        }
        active := activeIndex;
      }
      nowPlaying := copied;
      songIndex := active;
      repeating := false;
      calls := [];
    }

    method InsertSong(s: Option<S>, at: int) returns (o: Outcome)
      modifies this
      ensures var r := Inserted(old(nowPlaying), old(songIndex), s, at);
        nowPlaying == r.songs && songIndex == r.index && o == r.outcome
      ensures repeating == old(repeating) && calls == old(calls)
    {
      if s.None? {
        return Fail(ArgumentNull);
      }
      if at <= songIndex {
        songIndex := songIndex + 1;
      }
      if at < 0 || at > |nowPlaying| {
        return Fail(ArgumentOutOfRange);
      }
      nowPlaying := nowPlaying[..at] + [s.value] + nowPlaying[at..];
      o := Pass;
    }

    /** Add(song): insertion at the end of the list. */
    method Add(s: Option<S>) returns (o: Outcome)
      modifies this
      ensures var r := Inserted(old(nowPlaying), old(songIndex), s, |old(nowPlaying)|);
        nowPlaying == r.songs && songIndex == r.index && o == r.outcome
      ensures s.Some? <==> o == Pass
      ensures s.Some? ==> nowPlaying == old(nowPlaying) + [s.value]
      ensures old(songIndex) < |old(nowPlaying)| ==> songIndex == old(songIndex)
      ensures Current(nowPlaying, songIndex) == Current(old(nowPlaying), old(songIndex)) || s.None?
      ensures s.None? ==> nowPlaying == old(nowPlaying) && songIndex == old(songIndex)
      ensures repeating == old(repeating) && calls == old(calls)
    {
      o := InsertSong(s, |nowPlaying|);
      assert s.Some? ==> nowPlaying == old(nowPlaying)[..|old(nowPlaying)|] + [s.value];
    }

    /** Insert(collection, index): each song in turn, at consecutive positions. */
    method InsertMany(batch: seq<S>, at: int) returns (o: Outcome)
      modifies this
      ensures var r := InsertedAll(old(nowPlaying), old(songIndex), batch, at);
        nowPlaying == r.songs && songIndex == r.index && o == r.outcome
      ensures o == Pass && 0 <= at <= |old(nowPlaying)| ==>
        nowPlaying == old(nowPlaying)[..at] + batch + old(nowPlaying)[at..]
      ensures o == Pass ==> Current(nowPlaying, songIndex) == Current(old(nowPlaying), old(songIndex))
      ensures repeating == old(repeating) && calls == old(calls)
    {
      ghost var goal := InsertedAll(nowPlaying, songIndex, batch, at);
      InsertedAllPlaces(nowPlaying, songIndex, batch, at);
      var index := at;
      var i := 0;
      o := Pass;
      while i < |batch|
        invariant 0 <= i <= |batch| && index == at + i && o == Pass
        invariant goal == InsertedAll(nowPlaying, songIndex, batch[i..], index)
        invariant repeating == old(repeating) && calls == old(calls)
      {
        ghost var here := batch[i..];
        assert here[0] == batch[i] && here[1..] == batch[i + 1..];
        o := InsertSong(Some(batch[i]), index);
        if o.Fail? {
          return;
        }
        index := index + 1;
        i := i + 1;
      }
    }

    method NextSong() returns (o: Outcome)
      modifies this
      ensures var r := Advanced(old(nowPlaying), old(songIndex), old(repeating));
        songIndex == r.index && calls == old(calls) + r.calls && o == r.outcome
      ensures nowPlaying == old(nowPlaying) && repeating == old(repeating)
    {
      if songIndex < |nowPlaying| - 1 {
        var leaving := songIndex;
        songIndex := songIndex + 1;
        if leaving < 0 {
          return Fail(ArgumentOutOfRange);
        }
        calls := calls + [Play(nowPlaying[leaving])];
        return Pass;
      }
      songIndex := 0;
      if repeating {
        if |nowPlaying| == 0 {
          return Fail(ArgumentOutOfRange);
        }
        calls := calls + [Play(nowPlaying[songIndex])];
      } else {
        calls := calls + [Stop];
      }
      o := Pass;
    }

    method PreviousSong() returns (o: Outcome)
      modifies this
      ensures var r := Retreated(old(nowPlaying), old(songIndex));
        songIndex == r.index && calls == old(calls) + r.calls && o == r.outcome
      ensures nowPlaying == old(nowPlaying) && repeating == old(repeating)
    {
      songIndex := songIndex - 1;
      if songIndex < 0 {
        songIndex := |nowPlaying| - 1;
      }
      if songIndex < 0 || songIndex >= |nowPlaying| {
        return Fail(ArgumentOutOfRange);
      }
      calls := calls + [Play(nowPlaying[songIndex])];
      o := Pass;
    }

    /** RemoveSong, and Remove(index) which only forwards to it. */
    method RemoveSong(at: int) returns (o: Outcome)
      modifies this
      ensures var r := Removed(old(nowPlaying), old(songIndex), old(repeating), at);
        nowPlaying == r.songs && songIndex == r.index && calls == old(calls) + r.calls && o == r.outcome
      ensures repeating == old(repeating)
    {
      o := Pass;
      if at == songIndex {
        o := NextSong();
        if o.Fail? {
          return;
        }
      }
      if at < songIndex {
        songIndex := songIndex - 1;
      }
      if at < 0 || at >= |nowPlaying| {
        return Fail(ArgumentOutOfRange);
      }
      nowPlaying := nowPlaying[..at] + nowPlaying[at + 1..];
      if |nowPlaying| < 1 {
        songIndex := -1;
        calls := calls + [Stop];
      }
    }

    /** Remove(song): removes the first occurrence until none is left. */
    method RemoveAll(song: S)
      modifies this
      ensures var r := RemovedAll(old(nowPlaying), old(songIndex), old(repeating), song);
        nowPlaying == r.songs && songIndex == r.index && calls == old(calls) + r.calls
      ensures nowPlaying == Without(old(nowPlaying), song) && song !in nowPlaying
      ensures InRange(old(nowPlaying), old(songIndex)) ==> InRange(nowPlaying, songIndex)
      ensures (InRange(old(nowPlaying), old(songIndex)) &&
               Current(old(nowPlaying), old(songIndex)) != Success(Some(song))) ==>
        Current(nowPlaying, songIndex) == Current(old(nowPlaying), old(songIndex))
      ensures repeating == old(repeating)
    {
      ghost var goal := RemovedAll(nowPlaying, songIndex, repeating, song);
      RemovedAllWithout(nowPlaying, songIndex, repeating, song);
      RemovedAllKept(nowPlaying, songIndex, nowPlaying, songIndex, repeating, song);
      RemoveOccurrences(song, goal);
    }

    /** The loop of RemoveAll: removes occurrences until the state reaches goal. */
    method RemoveOccurrences(song: S, ghost goal: Change<S>)
      modifies this
      requires goal == RemovedAll(nowPlaying, songIndex, repeating, song)
      ensures nowPlaying == goal.songs && songIndex == goal.index && calls == old(calls) + goal.calls
      ensures repeating == old(repeating)
    {
      var index := IndexOf(nowPlaying, song);
      while index >= 0
        invariant index == IndexOf(nowPlaying, song)
        invariant repeating == old(repeating)
        invariant RemovalLeft(goal, old(calls), nowPlaying, songIndex, calls, repeating, song)
        decreases |nowPlaying|
      {
        RemovalStep(goal, old(calls), nowPlaying, songIndex, calls, repeating, song, index);
        var o := RemoveSong(index);
        index := IndexOf(nowPlaying, song);
      }
      RemovalEnd(goal, old(calls), nowPlaying, songIndex, calls, repeating, song);
    }

    method Clear()
      modifies this
      ensures nowPlaying == [] && songIndex == -1 && calls == old(calls) + [Stop]
      ensures repeating == old(repeating)
    {
      nowPlaying := [];
      songIndex := -1;
      calls := calls + [Stop];
    }

    /** The CurrentIndex setter, with the player's state as a parameter. */
    method SetCurrentIndex(value: int, state: MediaState) returns (o: Outcome)
      modifies this
      ensures var r := Selected(old(nowPlaying), old(songIndex), value, state);
        songIndex == r.index && calls == old(calls) + r.calls && o == r.outcome
      ensures nowPlaying == old(nowPlaying) && repeating == old(repeating)
    {
      if value >= |nowPlaying| {
        return Fail(ArgumentOutOfRange);
      }
      var v := if value < -1 then -1 else value;
      songIndex := v;
      if v < 0 || state == Paused {
        calls := calls + [Stop];
      } else {
        calls := calls + [Play(nowPlaying[songIndex])];
      }
      o := Pass;
    }

    /** One step of ShuffleTracks: positions i and j trade songs and the index follows its song. */
    method SwapTracks(i: int, j: int)
      requires 0 <= i < |nowPlaying| && 0 <= j < |nowPlaying| && i != j
      modifies this
      ensures songIndex == if i == old(songIndex) then j else if j == old(songIndex) then i else old(songIndex)
      ensures nowPlaying == old(nowPlaying)[i := old(nowPlaying)[j]][j := old(nowPlaying)[i]]
      ensures repeating == old(repeating) && calls == old(calls)
    {
      if i == songIndex {
        songIndex := j;
      } else if j == songIndex {
        songIndex := i;
      }
      var tmp := nowPlaying[i];
      nowPlaying := nowPlaying[i := nowPlaying[j]];
      nowPlaying := nowPlaying[j := tmp];
    }

    /**
     * ShuffleTracks, with the random generator's draws as `draws`: position i
     * is swapped with a drawn position, and the index follows its song.
     */
    method ShuffleTracks(draws: seq<int>)
      requires |draws| == |nowPlaying|
      requires forall k :: 0 <= k < |draws| ==> 0 <= draws[k] < |nowPlaying|
      modifies this
      ensures var r := Shuffled(old(nowPlaying), old(songIndex), draws, 0);
        nowPlaying == r.songs && songIndex == r.index
      ensures |nowPlaying| == |old(nowPlaying)| && multiset(nowPlaying) == multiset(old(nowPlaying))
      ensures Current(nowPlaying, songIndex) == Current(old(nowPlaying), old(songIndex))
      ensures !(0 <= old(songIndex) < |old(nowPlaying)|) ==> songIndex == old(songIndex)
      ensures repeating == old(repeating) && calls == old(calls)
    {
      ghost var goal := Shuffled(nowPlaying, songIndex, draws, 0);
      ShuffledKeeps(nowPlaying, songIndex, draws, 0);
      var i := 0;
      while i < |nowPlaying|
        invariant 0 <= i <= |nowPlaying| == |old(nowPlaying)|
        invariant Shuffled(nowPlaying, songIndex, draws, i) == goal
        invariant repeating == old(repeating) && calls == old(calls)
      {
        var index := draws[i];
        if index != i {
          SwapTracks(i, index);
        }
        i := i + 1;
      }
    }
  }
}
