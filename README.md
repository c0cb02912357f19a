# zune-utilities in Dafny

A model of the core of zune-utilities, a set of XNA components for the Zune
media player. The model covers three components.

**The scroll-back console, `ZConsole`.** Written text is split at line
breaks. The first piece continues the newest line. A piece wider than the
screen line is cut into fragments by a coarse-then-fine width probe. The
lines are kept in a fixed-capacity ring, `LineQueue`. The capacity is sized
from the font's line height, and `Draw` renders the lines oldest first.

**The play queue, `MediaManager`.** It holds a list of songs and the index
of the current song. It covers:
- inserting and removing songs, which moves the index so it keeps its song;
- next and previous, with wrap-around and the loop flag;
- shuffling, and the `CurrentIndex` setter.

The calls it makes on the media player are recorded as a ghost trace.

**The device component, `Zune`.** It covers:
- the mapping from the Zune's seven buttons to game-pad buttons, which
  turns with the screen orientation;
- the screen size in each orientation;
- button queries, pressed lists and input events, computed from the two
  latest polled game-pad states;
- the guard that refuses orientation changes and drawing while a drawing
  pass is open.

Modules, one per file:

- `Wrappers` (`wrappers.dfy`): `Option`, `Result`, `Outcome` and the
  exceptions the source throws (`Error`). `Diverges` stands for a loop of the
  source that never ends.
- `LineQueues` (`line_queue.dfy`): the class `LineQueue`, a ring of slots
  (an `array<Option<string>>`, where `None` is a null string) and a cursor.
  The ring's contents are given by a newest-first view, `Lines()`.
- `ConsoleText` (`text.dfy`):
  - `Split` (splitting at line breaks);
  - the capacity probe of `SetupLines`;
  - the two width probes of `WriteWrapString`, and the fragments the
    wrapping loop cuts, with the outcome of that loop.
- `ZuneConsole` (`zconsole.dfy`): the class `ZConsole`. Each method is tied
  to a specification function of the queue calls it makes (`WriteText`,
  `WriteEffect`, `PieceEffect`, `WrapOps`). Those functions are in turn tied
  to the view of the queue (`Apply`).
- `MediaQueue` (`media.dfy`): the class `MediaManager<S>` over any song type.
  Each of its methods is tied to a function on (songs, index) that returns
  the new list, the new index, the player calls and the outcome (`Change`).
- `ZuneDevice` (`zune.dfy`): the button mapping, `Size`, the pressed and
  event lists, and the class `Zune`.

A `MeasureString` of a font is a function `Measure` from a string to an
integer width and height. A game-pad poll is the set of pad buttons held
down. The subscribed input events are a set of event kinds. The events
raised are the list the method returns.

## Model

| member | source | states |
|---|---|---|
| LineQueues.Slot | trunk/ZuneConsole/ZuneConsole/ZConsole.cs:248-256 | the physical slot the indexer reads for an offset lies in the ring |
| LineQueues.AddView | trunk/ZuneConsole/ZuneConsole/ZConsole.cs:260-266 | after a new line enters, it is the newest and every other line is one place older; the capacity is unchanged |
| LineQueues.ReplaceView | trunk/ZuneConsole/ZuneConsole/ZConsole.cs:267-272 | overwriting the newest line changes no other line |
| LineQueues.ResizeView | trunk/ZuneConsole/ZuneConsole/ZConsole.cs:280-300 | after a change of capacity the newest lines are kept in order, up to the new capacity, and new slots are empty |
| LineQueues.Nones | trunk/ZuneConsole/ZuneConsole/ZConsole.cs:274-278 | a cleared queue shows only empty slots |
| LineQueues.RingAdd | trunk/ZuneConsole/ZuneConsole/ZConsole.cs:264-265 | storing a line in the slot after the cursor and advancing the cursor is `AddView` on the indexer's view |
| LineQueues.RingReplace | trunk/ZuneConsole/ZuneConsole/ZConsole.cs:271 | storing a line in the cursor's slot is `ReplaceView` on the indexer's view |
| LineQueues.RingOfNones | trunk/ZuneConsole/ZuneConsole/ZConsole.cs:274-278 | a ring of null slots shows only empty lines, wherever the cursor is |
| LineQueues.ResizeTwice | trunk/ZuneConsole/ZuneConsole/ZConsole.cs:280-300 | resizing to the same capacity twice is the same as resizing once |
| LineQueues.ResizedRing | trunk/ZuneConsole/ZuneConsole/ZConsole.cs:286-299 | the array `Resize` builds, read from cursor 0, shows the old view resized |
| LineQueues.LineQueue.constructor | trunk/ZuneConsole/ZuneConsole/ZConsole.cs:243-246 | a new queue has one empty slot and the cursor at 0 |
| LineQueues.LineQueue.SetIndex | trunk/ZuneConsole/ZuneConsole/ZConsole.cs:231-241 | the cursor setter stores the value modulo the capacity |
| LineQueues.LineQueue.Count | trunk/ZuneConsole/ZuneConsole/ZConsole.cs:258 | the count is the capacity, at least 1 |
| LineQueues.LineQueue.Get | trunk/ZuneConsole/ZuneConsole/ZConsole.cs:248-256 | the indexer succeeds exactly for offsets 0 to capacity-1, giving the line that many places older than the newest; other offsets give ArgumentOutOfRange |
| LineQueues.LineQueue.Add | trunk/ZuneConsole/ZuneConsole/ZConsole.cs:260-266 | null gives ArgumentNull and changes nothing; otherwise the cursor advances modulo the capacity and the view is `AddView` |
| LineQueues.LineQueue.ReplaceFirstLine | trunk/ZuneConsole/ZuneConsole/ZConsole.cs:267-272 | null gives ArgumentNull and changes nothing; otherwise the view is `ReplaceView` |
| LineQueues.LineQueue.Clear | trunk/ZuneConsole/ZuneConsole/ZConsole.cs:274-278 | every slot is empty; the capacity is unchanged |
| LineQueues.LineQueue.Resize | trunk/ZuneConsole/ZuneConsole/ZConsole.cs:280-300 | a size of 0 or less gives ArgumentOutOfRange and changes nothing; otherwise there is a fresh array of that size, the cursor is 0 and the view is `ResizeView` of the old one |
| LineQueues.LineQueue.CopyOlder | trunk/ZuneConsole/ZuneConsole/ZConsole.cs:293-297 | the copy loop moves the surviving older lines, oldest first, to the end of the new array and touches no other slot |
| ConsoleText.Split | trunk/ZuneConsole/ZuneConsole/ZConsole.cs:113 | there is at least one piece, and no piece holds a line break |
| ConsoleText.JoinSplit | trunk/ZuneConsole/ZuneConsole/ZConsole.cs:113 | splitting loses nothing: joining the pieces with line breaks gives the text back |
| ConsoleText.SplitJoin | trunk/ZuneConsole/ZuneConsole/ZConsole.cs:113 | break-free pieces are exactly what splitting their join gives |
| ConsoleText.SplitPlain | trunk/ZuneConsole/ZuneConsole/ZConsole.cs:113 | a text without a line break is one piece |
| ConsoleText.SplitBefore | trunk/ZuneConsole/ZuneConsole/ZConsole.cs:113 | a break-free prefix followed by a line break is a piece of its own |
| ConsoleText.SplitTrailingBreak | trunk/ZuneConsole/ZuneConsole/ZConsole.cs:113 | a text ending in a line break ends in an empty piece |
| ConsoleText.JoinAppend | trunk/ZuneConsole/ZuneConsole/ZConsole.cs:113 | joining one more piece adds a line break and that piece |
| ConsoleText.Probe | trunk/ZuneConsole/ZuneConsole/ZConsole.cs:215-219 | defines the probe text after j extensions: "." followed by j copies of a line break and "."; `Capacity` states what the probe finds |
| ConsoleText.Capacity | trunk/ZuneConsole/ZuneConsole/ZConsole.cs:212-220 | the probe's line count is the first one whose probe text is taller than the height budget; every shorter probe fits |
| ConsoleText.Coarse | trunk/ZuneConsole/ZuneConsole/ZConsole.cs:189-191 | the coarse probe ends at or above its start, on a length whose guard fails |
| ConsoleText.CoarseSteps | trunk/ZuneConsole/ZuneConsole/ZConsole.cs:189-191 | the coarse probe moves in steps of 5, and every length it stepped over fits |
| ConsoleText.CoarseLastFits | trunk/ZuneConsole/ZuneConsole/ZConsole.cs:189-192 | when the coarse probe moved, the length it steps back to fits |
| ConsoleText.Fine | trunk/ZuneConsole/ZuneConsole/ZConsole.cs:193-195 | the fine probe fails with ArgumentOutOfRange exactly when it starts from a negative length; otherwise it ends at or above its start, on a length whose guard fails |
| ConsoleText.FineSteps | trunk/ZuneConsole/ZuneConsole/ZConsole.cs:193-195 | every length the fine probe stepped over fits |
| ConsoleText.FragmentLength | trunk/ZuneConsole/ZuneConsole/ZConsole.cs:189-197 | a pass cuts a fragment that lies inside the text, or fails with ArgumentOutOfRange |
| ConsoleText.Fragments | trunk/ZuneConsole/ZuneConsole/ZConsole.cs:187-206 | defines the wrapping loop: each pass cuts `FragmentLength` characters and carries that length into the next pass, an exception ends the loop keeping the fragments cut so far, and a pass that cuts nothing from length 0 runs forever; its properties are the `Fragments…` lemmas below |
| ConsoleText.FragmentsCover | trunk/ZuneConsole/ZuneConsole/ZConsole.cs:187-206 | the fragments, glued together, are a prefix of the text from the start index, and are all of it when the loop ends normally |
| ConsoleText.FragmentsOutcome | trunk/ZuneConsole/ZuneConsole/ZConsole.cs:187-206 | the loop ends in exactly one of three ways: normally, with ArgumentOutOfRange from `Substring`, or by running forever |
| ConsoleText.FragmentsStep | trunk/ZuneConsole/ZuneConsole/ZConsole.cs:187-206 | a pass that cuts a fragment, and does not repeat its start state, is followed by the loop from the next start with the carried length |
| ConsoleText.FragmentsStop | trunk/ZuneConsole/ZuneConsole/ZConsole.cs:187-206 | a pass that throws, or that repeats its start state, ends the loop with that outcome |
| ConsoleText.PendingStep | trunk/ZuneConsole/ZuneConsole/ZConsole.cs:187-206 | part-way through the loop, one more fragment moves from the remaining passes to the cut fragments |
| ConsoleText.PendingStop | trunk/ZuneConsole/ZuneConsole/ZConsole.cs:187-206 | when a pass stops the loop, the fragments cut so far are all there will be |
| ConsoleText.PendingEnd | trunk/ZuneConsole/ZuneConsole/ZConsole.cs:187 | at the end of the text the loop has passed, with the fragments cut so far |
| ConsoleText.FirstFragmentFits | trunk/ZuneConsole/ZuneConsole/ZConsole.cs:186-197 | under any measure, the first fragment is strictly narrower than the budget |
| ConsoleText.CarriedLengthThrows | trunk/ZuneConsole/ZuneConsole/ZConsole.cs:186-206 | at one pixel per character and a budget of 4, "abcdefghij" is cut into "abc", "def", "ghi", and then the loop throws ArgumentOutOfRange |
| ConsoleText.CarriedFirstPass | trunk/ZuneConsole/ZuneConsole/ZConsole.cs:189-197 | the first pass of that case cuts 3 characters |
| ConsoleText.CarriedLaterPass | trunk/ZuneConsole/ZuneConsole/ZConsole.cs:189-197 | the second and third passes, starting from the carried length 3, cut 3 characters each |
| ConsoleText.CarriedLastPass | trunk/ZuneConsole/ZuneConsole/ZConsole.cs:189-197 | the last pass starts the fine probe at -2 and throws |
| ConsoleText.TailDiverges | trunk/ZuneConsole/ZuneConsole/ZConsole.cs:186-206 | at one pixel per character and a budget of 10, "abcdefghijklmno" is cut into "abcdefghi", "jklmn" and an empty fragment, and then the loop never ends |
| ConsoleText.TailFirstPass | trunk/ZuneConsole/ZuneConsole/ZConsole.cs:189-197 | the first pass of that case cuts 9 characters |
| ConsoleText.TailSecondPass | trunk/ZuneConsole/ZuneConsole/ZConsole.cs:189-197 | the second pass, from the carried length 9, cuts the 5 characters left |
| ConsoleText.TailEmptyPasses | trunk/ZuneConsole/ZuneConsole/ZConsole.cs:189-197 | at the end of the text, passes from lengths 5 and 0 cut nothing |
| ConsoleText.WideGlyphDiverges | trunk/ZuneConsole/ZuneConsole/ZConsole.cs:186-206 | when every character is wider than the line, one empty fragment is handed over and the loop never ends |
| ZuneConsole.ScreenHeight | trunk/ZuneConsole/ZuneConsole/ZConsole.cs:213 | the height budget is the width budget of the other orientation (318 in portrait, 238 in landscape), and it exceeds the line width exactly in portrait |
| ZuneConsole.WriteEffect | trunk/ZuneConsole/ZuneConsole/ZConsole.cs:114-124 | defines the queue calls of the loop over the pieces, the first piece over the newest line, stopping at the first piece that throws; `WriteEffectStep` and `WriteEffectStops` state how it grows |
| ZuneConsole.WriteText | trunk/ZuneConsole/ZuneConsole/ZConsole.cs:107-125 | defines the whole of `Write` on a view: NullReference when neither the newest line nor the text exists, else `WriteEffect` of the pieces of the continued text; `ContinueLine`, `WriteTwice` and `LineEnds` state what it does to the lines |
| ZuneConsole.ApplyConcat | trunk/ZuneConsole/ZuneConsole/ZConsole.cs:114-124 | queue calls made in two runs have the effect of their concatenation |
| ZuneConsole.WrapOps | trunk/ZuneConsole/ZuneConsole/ZConsole.cs:198-204 | each fragment is one queue call |
| ZuneConsole.WrapOpsSnoc | trunk/ZuneConsole/ZuneConsole/ZConsole.cs:198-205 | after the first fragment, each further fragment is added as a new line |
| ZuneConsole.WrapOpsStep | trunk/ZuneConsole/ZuneConsole/ZConsole.cs:198-205 | handing over one more fragment is one more queue call |
| ZuneConsole.PieceEffect | trunk/ZuneConsole/ZuneConsole/ZConsole.cs:116-123 | a piece that fits the width passes with exactly one queue call |
| ZuneConsole.WriteEffectStep | trunk/ZuneConsole/ZuneConsole/ZConsole.cs:114-124 | one more iteration of the piece loop appends that piece's calls and takes its outcome |
| ZuneConsole.WriteEffectStops | trunk/ZuneConsole/ZuneConsole/ZConsole.cs:114-124 | once a piece has thrown, the later pieces add nothing |
| ZuneConsole.Continued | trunk/ZuneConsole/ZuneConsole/ZConsole.cs:110-112 | the newest line, when there is one, comes before the text, and a null text reads as empty; the result is null only when both are null |
| ZuneConsole.WriteUnwrapped | trunk/ZuneConsole/ZuneConsole/ZConsole.cs:114-124 | pieces that all fit are written one line each: the first over the newest line, the last newest, and older lines move up by the number of new lines |
| ZuneConsole.WriteOneMore | trunk/ZuneConsole/ZuneConsole/ZConsole.cs:120-123 | a fitting piece after the first adds exactly one line |
| ZuneConsole.WrittenOverAdd | trunk/ZuneConsole/ZuneConsole/ZConsole.cs:122-123 | one more fitting piece keeps the lines-written-over relation |
| ZuneConsole.ContinueLine | trunk/ZuneConsole/ZuneConsole/ZConsole.cs:107-125 | writing a break-free text that fits continues the newest line, and no other line changes |
| ZuneConsole.WriteTwice | trunk/ZuneConsole/ZuneConsole/ZConsole.cs:107-125 | writing two break-free texts that fit is writing their concatenation (streaming continuation) |
| ZuneConsole.LineEnds | trunk/ZuneConsole/ZuneConsole/ZConsole.cs:97-125 | a fitting `WriteLine` leaves an empty newest line, with the continued line just before it |
| ZuneConsole.LineEndsPieces | trunk/ZuneConsole/ZuneConsole/ZConsole.cs:99-113 | the text of such a `WriteLine` splits into the continued line and an empty piece |
| ZuneConsole.Render | trunk/ZuneConsole/ZuneConsole/ZConsole.cs:148-153 | defines the text `Draw` renders: the non-null lines, oldest first, each followed by a line break; `RenderNones`, `RenderNewest` and `RenderAdd` state its properties |
| ZuneConsole.RenderNones | trunk/ZuneConsole/ZuneConsole/ZConsole.cs:148-153 | a cleared console renders as the empty text |
| ZuneConsole.RenderNewest | trunk/ZuneConsole/ZuneConsole/ZConsole.cs:148-153 | the rendered text ends with the newest line and a line break, after what the older lines render as |
| ZuneConsole.RenderAdd | trunk/ZuneConsole/ZuneConsole/ZConsole.cs:148-153 | after a new line, the render is the old render without its oldest line, then the new line |
| ZuneConsole.ZConsole.constructor | trunk/ZuneConsole/ZuneConsole/ZConsole.cs:24 | a new console is portrait, has no font loaded, and has one empty line |
| ZuneConsole.ZConsole.LoadContent | trunk/ZuneConsole/ZuneConsole/ZConsole.cs:175-181 | the font is loaded and the queue is resized to the probed line count, keeping the newest lines |
| ZuneConsole.ZConsole.SetupLines | trunk/ZuneConsole/ZuneConsole/ZConsole.cs:209-223 | the font is loaded first if needed, and the queue ends up resized to the probed line count, keeping the newest lines |
| ZuneConsole.ZConsole.SetDisplayPortrait | trunk/ZuneConsole/ZuneConsole/ZConsole.cs:67-77 | setting the current value changes nothing; a change of orientation re-sizes the queue for the new orientation |
| ZuneConsole.ZConsole.SetDisplayLandscape | trunk/ZuneConsole/ZuneConsole/ZConsole.cs:81-91 | the same as setting `DisplayPortrait` to the negation |
| ZuneConsole.ZConsole.Clear | trunk/ZuneConsole/ZuneConsole/ZConsole.cs:130-133 | every line becomes empty; the line count is unchanged |
| ZuneConsole.ZConsole.WriteWrapString | trunk/ZuneConsole/ZuneConsole/ZConsole.cs:184-207 | the queue receives the fragments `Fragments` cuts, the first one over the newest line when asked, and the method ends with that loop's outcome |
| ZuneConsole.ZConsole.HandOver | trunk/ZuneConsole/ZuneConsole/ZConsole.cs:198-204 | a fragment replaces the newest line or is added as a new line |
| ZuneConsole.ZConsole.NextFragment | trunk/ZuneConsole/ZuneConsole/ZConsole.cs:189-197 | one pass of the probes returns the outcome and the length of `FragmentLength` |
| ZuneConsole.ZConsole.Write | trunk/ZuneConsole/ZuneConsole/ZConsole.cs:107-125 | the font is loaded if needed; the queue then takes the effect of `WriteText` on the continued text, and the method ends with its outcome |
| ZuneConsole.ZConsole.WritePieces | trunk/ZuneConsole/ZuneConsole/ZConsole.cs:114-124 | the loop over the pieces has the effect of `WriteEffect` and stops at the first piece that throws |
| ZuneConsole.ZConsole.WritePiece | trunk/ZuneConsole/ZuneConsole/ZConsole.cs:116-123 | one piece is wrapped, replaces the newest line, or is added, as `PieceEffect` says |
| ZuneConsole.ZConsole.WriteLine | trunk/ZuneConsole/ZuneConsole/ZConsole.cs:97-101 | a null text reads as empty, and the write ends with a line break |
| ZuneConsole.ZConsole.Draw | trunk/ZuneConsole/ZuneConsole/ZConsole.cs:144-153 | after the font is loaded if needed, the output is every line that is not null, oldest first, each followed by a line break |
| MediaQueue.Current | trunk/Zune/Zune/MediaManager.cs:125-132 | a negative index gives no song; an index past the end throws ArgumentOutOfRange; otherwise the result is the song at the index |
| MediaQueue.Inserted | trunk/Zune/Zune/MediaManager.cs:249-256 | null gives ArgumentNull and changes nothing; an insertion passes exactly for positions 0 to count; then the song is at the position, the list holds one song more, and the current song is unchanged |
| MediaQueue.InsertedAll | trunk/Zune/Zune/MediaManager.cs:185-204 | defines inserting a batch one song at a time at consecutive positions, stopping at the first failure; `InsertedAllPlaces` states its result |
| MediaQueue.InsertedAllPlaces | trunk/Zune/Zune/MediaManager.cs:185-204 | a batch inserted at consecutive positions lands as one block at the position, the current song is unchanged, and no player call is made |
| MediaQueue.Advanced | trunk/Zune/Zune/MediaManager.cs:228-240 | before the last song the index moves up by one and the song it leaves is played; at the end the index becomes 0 and the player stops, or plays the first song when looping |
| MediaQueue.Retreated | trunk/Zune/Zune/MediaManager.cs:242-247 | the index moves back one, wrapping from 0 to the last song, and the song there is played; an empty list throws ArgumentOutOfRange |
| MediaQueue.Removed | trunk/Zune/Zune/MediaManager.cs:258-268 | removal passes exactly for positions 0 to count-1, dropping that song; the index keeps its song when another is removed, moves on to the next song when the current one is removed, and is -1 once the list is empty |
| MediaQueue.Selected | trunk/Zune/Zune/MediaManager.cs:134-151 | values at or past the count throw ArgumentOutOfRange; values below -1 become -1; the player stops for no song or when paused, and otherwise plays the selected song |
| MediaQueue.IndexOf | trunk/Zune/Zune/MediaManager.cs:215 | the first position of the song, or -1 exactly when it is absent |
| MediaQueue.Without | trunk/Zune/Zune/MediaManager.cs:212-217 | the song is gone and the list did not grow |
| MediaQueue.WithoutKeepsOthers | trunk/Zune/Zune/MediaManager.cs:212-217 | every other song is kept as often as it occurred |
| MediaQueue.WithoutRemoveAt | trunk/Zune/Zune/MediaManager.cs:215-216 | removing one occurrence does not change what remains once all are removed |
| MediaQueue.WithoutAbsent | trunk/Zune/Zune/MediaManager.cs:215 | once the song is absent, nothing more is removed |
| MediaQueue.RemoveUndoesInsert | trunk/Zune/Zune/MediaManager.cs:249-268 | removing a song just inserted restores the list and the index |
| MediaQueue.PreviousUndoesNext | trunk/Zune/Zune/MediaManager.cs:228-247 | `PreviousSong` undoes `NextSong` before the last song |
| MediaQueue.NextUndoesPrevious | trunk/Zune/Zune/MediaManager.cs:228-247 | `NextSong` undoes `PreviousSong` for every song, wrapping at both ends |
| MediaQueue.SwapFollows | trunk/Zune/Zune/MediaManager.cs:76-83 | a swap in which the index follows its song keeps the songs as a multiset and keeps the current song |
| MediaQueue.Shuffled | trunk/Zune/Zune/MediaManager.cs:70-84 | the shuffle loop from position i keeps the length of the list, makes no player call and passes |
| MediaQueue.ShuffledKeeps | trunk/Zune/Zune/MediaManager.cs:70-84 | the shuffle gives a permutation of the songs, keeps the current song, and leaves an index out of range alone |
| MediaQueue.RemovedAll | trunk/Zune/Zune/MediaManager.cs:212-217 | defines removing the first occurrence of the song with `RemoveSong` until none is left, collecting the player calls of each removal |
| MediaQueue.RemovedAllWithout | trunk/Zune/Zune/MediaManager.cs:212-217 | removing every occurrence passes and leaves exactly the other songs, in their order |
| MediaQueue.RemovedAllKept | trunk/Zune/Zune/MediaManager.cs:212-217 | removing every occurrence keeps an index that was in range in range, and keeps the current song unless it was the song removed |
| MediaQueue.RemovalStep | trunk/Zune/Zune/MediaManager.cs:215-216 | one more removal in the loop leaves the rest of the work as `RemovedAll` of the new state |
| MediaQueue.RemovalEnd | trunk/Zune/Zune/MediaManager.cs:215 | once the song is absent, the loop's state is the state `RemovedAll` gives |
| MediaQueue.RemoveOccurrence | trunk/Zune/Zune/MediaManager.cs:212-217 | removing one occurrence of the song keeps the loop's invariant and shortens the list |
| MediaQueue.MediaManager.constructor | trunk/Zune/Zune/MediaManager.cs:22-28 | the player's queue and active index are copied, unless the queue is empty; then there are no songs and the index is -1 |
| MediaQueue.MediaManager.InsertSong | trunk/Zune/Zune/MediaManager.cs:181-184 | the new state is `Inserted` of the old one |
| MediaQueue.MediaManager.Add | trunk/Zune/Zune/MediaManager.cs:156-159 | the new list, index and outcome are `Inserted` at the end of the list: the song is appended, an index in range stays put and the current song is unchanged; null throws ArgumentNull |
| MediaQueue.MediaManager.InsertMany | trunk/Zune/Zune/MediaManager.cs:185-204 | the songs of a collection go in one by one at consecutive positions, as `InsertedAll` says; on success they form one block and the current song is unchanged |
| MediaQueue.MediaManager.NextSong | trunk/Zune/Zune/MediaManager.cs:60-63 | the new index, the player calls and the outcome are `Advanced` of the old state |
| MediaQueue.MediaManager.PreviousSong | trunk/Zune/Zune/MediaManager.cs:65-68 | the new index, the player calls and the outcome are `Retreated` of the old state |
| MediaQueue.MediaManager.RemoveSong | trunk/Zune/Zune/MediaManager.cs:207-210 | the new state is `Removed` of the old one |
| MediaQueue.MediaManager.RemoveAll | trunk/Zune/Zune/MediaManager.cs:212-217 | the new list, index and player calls are `RemovedAll` of the old state: every occurrence of the song is removed and the others keep their order; an index that was in range stays in range, on the same song unless that song was removed |
| MediaQueue.MediaManager.RemoveOccurrences | trunk/Zune/Zune/MediaManager.cs:215-216 | the removal loop reaches the state `RemovedAll` gives, making its player calls |
| MediaQueue.MediaManager.Clear | trunk/Zune/Zune/MediaManager.cs:219-224 | the list is empty, the index is -1 and the player stops |
| MediaQueue.MediaManager.SetCurrentIndex | trunk/Zune/Zune/MediaManager.cs:134-151 | the new index, the player calls and the outcome are `Selected` of the old state |
| MediaQueue.MediaManager.SwapTracks | trunk/Zune/Zune/MediaManager.cs:75-83 | two positions trade songs, and the index follows the song it pointed at |
| MediaQueue.MediaManager.ShuffleTracks | trunk/Zune/Zune/MediaManager.cs:70-84 | the new list and index are `Shuffled` of the old state with the draws: a permutation of the old list, the current song unchanged, an index out of range left alone |
| ZuneDevice.Ord | trunk/Zune/Zune/Zune.cs:33-64 | the enum values of the Zune buttons are 0 to 6 |
| ZuneDevice.ButtonOf | trunk/Zune/Zune/Zune.cs:273 | the cast from 0 to 6 gives the button with that enum value |
| ZuneDevice.ButtonFor | trunk/Zune/Zune/Zune.cs:286-334 | Select reads A, Back reads BackButton and PlayPause reads B; a direction reads a D-pad button and nothing else does; in portrait a direction reads the D-pad button of the same name |
| ZuneDevice.ButtonForInjective | trunk/Zune/Zune/Zune.cs:286-334 | in every orientation, distinct Zune buttons read distinct pad buttons |
| ZuneDevice.DPadCovered | trunk/Zune/Zune/Zune.cs:286-334 | in every orientation, each D-pad button is read by some direction |
| ZuneDevice.LandscapeTurns | trunk/Zune/Zune/Zune.cs:286-334 | landscape turns each direction a quarter turn clockwise |
| ZuneDevice.LeftyMirrorsLandscape | trunk/Zune/Zune/Zune.cs:286-334 | lefty landscape reads each direction from the D-pad button opposite to the one landscape uses |
| ZuneDevice.Size | trunk/Zune/Zune/Zune.cs:155-163 | the area is 240 by 320 pixels; width is below height exactly in portrait |
| ZuneDevice.QueryRank | trunk/Zune/Zune/Zune.cs:219-232 | every Zune button has a place in the query order |
| ZuneDevice.Pressed | trunk/Zune/Zune/Zune.cs:206-210 | defines `IsPressed`: the pad button the Zune button reads is held; `NewPress` and `DueEvents` state properties in its terms |
| ZuneDevice.NewPress | trunk/Zune/Zune/Zune.cs:212-218 | a new press is a button held now and not held at the previous poll |
| ZuneDevice.PressedAmong | trunk/Zune/Zune/Zune.cs:219-232 | defines the list after the first k queries of `GetAllPressed`; `InPressedAmong` and `PressedAmongOrdered` state what it holds |
| ZuneDevice.InPressedAmong | trunk/Zune/Zune/Zune.cs:219-232 | after the first k queries, a button is listed exactly when it is among them and held |
| ZuneDevice.PressedAmongOrdered | trunk/Zune/Zune/Zune.cs:219-232 | the listed buttons come in query order, each at most once |
| ZuneDevice.Due | trunk/Zune/Zune/Zune.cs:273-282 | the events due for a button are all about that button |
| ZuneDevice.DueUpTo | trunk/Zune/Zune/Zune.cs:271-283 | defines the events of the first k iterations of the event loop; `InDueUpTo` and `DueUpToOrdered` state what it holds |
| ZuneDevice.InDueUpTo | trunk/Zune/Zune/Zune.cs:271-283 | an event is raised in the first k iterations exactly when it is due for its button, which is one of the first k |
| ZuneDevice.DueUpToOrdered | trunk/Zune/Zune/Zune.cs:271-283 | the events come grouped by button, in enum order |
| ZuneDevice.DueEvents | trunk/Zune/Zune/Zune.cs:266-283 | with a listener subscribed, ButtonDown is raised exactly for new presses, ButtonUp exactly for releases, and ButtonPressed exactly for held buttons |
| ZuneDevice.Zune.constructor | trunk/Zune/Zune/Zune.cs:96-100 | the orientation is as given, drawing is closed and nothing is held |
| ZuneDevice.Zune.Initialize | trunk/Zune/Zune/Zune.cs:121-127 | the render target is portrait-sized and both states come from one poll |
| ZuneDevice.Zune.GetAllPressed | trunk/Zune/Zune/Zune.cs:219-232 | the result lists exactly the held buttons, each once, in the fixed query order |
| ZuneDevice.Zune.AddIfPressed | trunk/Zune/Zune/Zune.cs:222-228 | one query lists its button exactly when it is held |
| ZuneDevice.Zune.CheckInputEvents | trunk/Zune/Zune/Zune.cs:266-283 | the events raised are `DueUpTo` over all seven buttons: new presses, releases and held buttons for the subscribed kinds, in enum order |
| ZuneDevice.Zune.Update | trunk/Zune/Zune/Zune.cs:130-135 | the latest state becomes the previous one, the new poll becomes the latest, and the events follow from the two |
| ZuneDevice.Zune.AssertNotDrawing | trunk/Zune/Zune/Zune.cs:253-257 | passes exactly when drawing is closed |
| ZuneDevice.Zune.SetOrientation | trunk/Zune/Zune/Zune.cs:142-153 | refused while drawing is open; otherwise the orientation is set, and the render target is re-sized for it exactly when it changed |
| ZuneDevice.Zune.BeginDrawing | trunk/Zune/Zune/Zune.cs:165-169 | drawing is open and nothing else changes |
| ZuneDevice.Zune.EndDrawing | trunk/Zune/Zune/Zune.cs:198-202 | drawing is closed and nothing else changes |
| ZuneDevice.Zune.Draw | trunk/Zune/Zune/Zune.cs:171-196 | refused while drawing is open |

## Source behaviour worth knowing

- **The trial length is carried over.** `WriteWrapString` does not reset
  the trial length to 5 for each fragment; the length cut last is carried
  over. So fragments after the first are not bounded by the width, and a
  pass can start its fine probe from a negative length. With one pixel per
  character and a budget of 4, "abcdefghij" is cut into "abc", "def", "ghi",
  and then `Substring` throws (`CarriedLengthThrows`). Only the first
  fragment is bounded by the width: it is strictly narrower than the
  budget, because the probes compare with `<` (`FirstFragmentFits`).
- **The wrapping loop can run forever.** There is no guard against a
  zero-length fragment. When a pass starts from length 0 and cuts nothing,
  the loop repeats the same state forever. This is modelled as the outcome
  `Diverges`. It happens when every character is wider than the line
  (`WideGlyphDiverges`), and also for an ordinary line that is too wide:
  at one pixel per character and a budget of 10, "abcdefghijklmno" is cut
  into "abcdefghi" and "jklmn"; with "o" still to write, the carried
  length 5 runs past the end of the text, so the next pass cuts an empty
  fragment and hands it to the queue, and the pass after it starts from length 0 and cuts nothing again
  (`TailDiverges`).
- **`Write(null)` does not always throw.** It continues the newest line
  when there is one (C# concatenation reads null as empty). It throws
  NullReference only when there is no newest line either.
- **`Resize` places the newest line in slot 0.** It resets the cursor to 0
  and gives ArgumentOutOfRange for a size of 0 or less. The newest lines
  keep their order, newest first.

## Left out

- Rendering: `SpriteBatch`, `DrawString`, the colour and alpha blending, `RenderTarget2D`, and the rotation angle and texture centre in `Zune.Draw`. These are foreign XNA calls on floats. The render target is modelled by its size only, and `ZConsole.Draw` by the string it renders.
- Font loading: `Content.Load`. A font is a `Measure` function with integer results, and `MeasureString`'s floats are not modelled. `ZConsole` requires a font whose probe text grows taller line by line (`Tall`). For any other font the `SetupLines` probe need not end.
- The media player: the effects of `MediaPlayer.Play/Pause/Stop`, and `MediaManager.Play`, `Pause`, `Stop`, `Update` (play positions are `TimeSpan`) and `Volume` (a float). The calls the manager makes are a ghost trace, and the player's state is a parameter of `SetCurrentIndex`.
- `MediaManager`'s indexer setter and the `Loop` and `Count` accessors. Only the `repeating` field is modelled.
- The `Add`/`Insert` overloads for `Artist`, `Album`, `Genre` and `Playlist` are modelled only as "insert this sequence of songs" (`InsertMany`). Enumerating the media library is foreign.
- `Rnd.Next` in `ShuffleTracks`: the random draws are an input sequence.
- `ShuffleTracks` takes one draw per position, each in range, because that is what `Rnd.Next(Count)` returns. A draw equal to its own position is skipped, as in the source.
- `GamePad.GetState` polling: a poll is a set of held buttons passed in. The C# event delegates are modelled as the set of subscribed event kinds and the list of events returned. The `GameTime` carried in the events, the component base classes and `Zune.MediaLibrary`/`Media` are not modelled.
- `ButtonFromZuneButton`'s default case, which cannot be reached for the seven enum values, is not modelled.
- `AssertNotDrawing`'s generic `Exception` is the error `InvalidOperation`. `AssertDrawing` is never called in the source and is not modelled.
- `ZuneDevice.Zune.constructor`: the render target does not exist until `Initialize`. The model gives it the portrait size from the start.
- Overflow: `int` is unbounded. No operation of the core comes near 32 bits with realistic list and screen sizes.
- `Game1.cs`, `ConsoleTest.cs` and `Program.cs`: these are host programs and a timing benchmark, not part of this model.
