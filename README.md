# Lyric synchronisation engine, modelled in Dafny

This project models the core of a small lyric-timing web app. The user
listens to a track and stamps each line of lyrics with the playback
position. The lines can be edited freely as one block of text, and the
result is exported as an LRC file (`[MM:SS.CC]text` per line).

The model has five modules.

- `Wrappers`: `Option` (JavaScript's `null`) and `Result`.
- `Text`: the JavaScript string primitives the code relies on:
  - `trim`, using the white-space and line-terminator code points of
    ECMA-262 sections 12.2 and 12.3;
  - `split('\n')` and `join('\n')`;
  - `Number.prototype.toString` on non-negative integers;
  - `padStart(2, '0')`.
- `Lyrics`: the `Lyric { id, text, timestamp | null }` record. It also holds
  the pure rule by which each store action computes its new lyric list:
  add, set, clear and nudge a timestamp, edit a text, and rebuild the
  list from the free-text block.
- `Store`: the zustand store as a class, `AudioStore`. Each action is a
  method that replaces the fields the action `set`s, with the new value
  given by the `Lyrics` rule. `seekToTime` clamps the position to the
  track.
- `Background`: everything the synchronisation screen derives from the
  list:
  - the timestamp text;
  - the "Finish" export, refused while a line is unsynced, otherwise a
    sort, a format and a join;
  - the three filter views and their counts;
  - the line highlighted as now playing, as a method with the source's
    loop;
  - the lines the two bottom buttons act on.

Times are whole milliseconds (`nat`). The source works in seconds as
floating-point numbers, so the source's fields map as follows:

| source | model |
|---|---|
| `Math.floor(time / 60)` | `ms / 60000` |
| `Math.floor(time % 60)` | `ms / 1000 % 60` |
| `Math.floor((time % 1) * 100)` | `ms % 1000 / 10` |
| nudges of ±0.01 s and ±0.03 s | ±10 ms and ±30 ms |

Ids are integers. `Date.now()` becomes a parameter (`now`, `base`) that the
caller supplies.

## Behaviour worth knowing

- **`importLyricsToSync` matches lines to entries by position, not by
  text** (src/lib/store.ts:184-199). The comment at src/lib/store.ts:184
  says so: strict correspondence by index, not by text, every line
  independent. The model follows that rule:
  - Entry `i` takes the id and timestamp of the old entry `i`.
  - `ImportMatchesByIndex` proves what this means. Swapping two lines of
    the block swaps the texts under fixed ids and timestamps, so a
    timestamp stays with the position, not with its line.
  - `EditBlankThenImport` shows the same rule after an edit. `editLyric`
    accepts an empty text, and a later import drops that line. The next
    line's text then moves onto the blanked entry's id and timestamp, and
    the last entry disappears.
- **`editLyric` stores the new text untrimmed** (src/lib/store.ts:214).
  Only `importLyricsToSync` trims.
- **`resetLyrics` empties only the list** (src/lib/store.ts:125). The
  free-text block keeps its contents.

## Model

| member | source | states |
|---|---|---|
| Text.Trim | src/lib/store.ts:182 | `trim()` leaves no white space at either end, and the result is empty exactly when the line is blank |
| Text.TrimIsInfix | src/lib/store.ts:190 | trimming removes only white space, and only at the two ends: the result is a contiguous piece of the input with blank edges |
| Text.TrimTrimmed | src/lib/store.ts:190 | trimming a string with no white space at its ends changes nothing |
| Text.Split | src/lib/store.ts:182 | `split('\n')` yields at least one piece, and no piece holds a line break |
| Text.Join | src/lib/store.ts:218 | `join(sep)` holds no separator exactly when it joins at most one piece and no piece holds one |
| Text.JoinSplit | src/lib/store.ts:182 | joining the pieces of a split with the separator gives back the original text |
| Text.SplitJoin | src/lib/store.ts:218 | splitting a join of separator-free pieces gives back the pieces |
| Text.NatToString | src/screens/Background/Background.tsx:54 | `toString()` of a non-negative integer: at least one decimal digit, no leading zero, denotes the number, and at most two digits below 100 |
| Text.PadStart2 | src/screens/Background/Background.tsx:54 | `padStart(2, '0')` gives at least two characters, ends with the original and keeps the value a string of digits denotes |
| Lyrics.AddLyric | src/lib/store.ts:101-114 | one entry is appended with the given text and id and the current time as its timestamp; every earlier entry is unchanged |
| Lyrics.SetTimestamp | src/lib/store.ts:116-122 | length, order, ids and texts are kept; entries with the id get the timestamp; every other entry is unchanged |
| Lyrics.SetTimestampAbsent | src/lib/store.ts:116-122 | setting a timestamp for an id no entry carries leaves the list as it was |
| Lyrics.SetTimestampLastWins | src/lib/store.ts:116-122 | setting a timestamp twice for one id is the same as setting only the second |
| Lyrics.RemoveTimestamp | src/lib/store.ts:203-209 | matching entries become unsynced, ids and texts are kept, and every other entry is unchanged |
| Lyrics.RemoveIsSetNull | src/lib/store.ts:203-209 | removing a timestamp is setting it to null |
| Lyrics.AdjustTimestamp | src/lib/store.ts:235-245 | a null timestamp stays null; a matching synced entry gets `max(0, t + d)`; ids and texts are kept; every other entry is unchanged |
| Lyrics.AdjustUndo | src/lib/store.ts:235-245 | a nudge that does not hit the floor at zero is undone by the opposite nudge |
| Lyrics.AdjustSameDirection | src/lib/store.ts:235-245 | two nudges in the same direction add up to one |
| Lyrics.EditText | src/lib/store.ts:211-215 | matching entries get the new text untrimmed; ids and timestamps are kept; every other entry is unchanged |
| Lyrics.Texts | src/lib/store.ts:218 | the texts of the entries, one per entry, in order |
| Lyrics.EditableText | src/lib/store.ts:218 | the block `editLyric` writes splits at its line breaks back into the entries' texts, one line per entry, when there is an entry and no text holds a line break |
| Lyrics.ImportLines | src/lib/store.ts:182 | the lines an import keeps are no more than the pieces of the split, and each is non-blank and free of line breaks |
| Lyrics.NonBlank | src/lib/store.ts:182 | the kept lines are no more than the given ones, none of them is blank, and each is one of the given lines (which lines are kept, in which order: `NonBlankOne`, `NonBlankAppend`) |
| Lyrics.NonBlankOne | src/lib/store.ts:182 | a single line is kept exactly when it is not blank |
| Lyrics.NonBlankAppend | src/lib/store.ts:182 | the kept lines of a concatenation are the kept lines of each part, in order; with `NonBlankOne`, every non-blank line is kept, in order, as often as it occurs |
| Lyrics.NonBlankKeepsAll | src/lib/store.ts:182 | a list with no blank line passes the filter whole |
| Lyrics.Reconciled | src/lib/store.ts:186-197 | the entry for kept line `i` has the trimmed line as text; it has the id and timestamp of old entry `i` when there is one, and otherwise id `base + i` and no timestamp |
| Lyrics.BlockLines | src/lib/store.ts:182 | the lines kept from a block of clean lines, joined by line breaks, are exactly those lines |
| Lyrics.Import | src/lib/store.ts:180-201 | one entry per non-blank line, with text the trimmed line `i`; entry `i` keeps the id and timestamp of old entry `i` when there is one; otherwise it is unsynced with id `base + i` |
| Lyrics.TrimClean | src/lib/store.ts:182-190 | a non-blank line without line breaks trims to a clean line: non-empty, trimmed, no line break |
| Lyrics.ImportTextsClean | src/lib/store.ts:182-196 | every text produced by the import is a clean line |
| Lyrics.ImportNewIdsDistinct | src/lib/store.ts:193-197 | the new entries of one import have pairwise distinct ids |
| Lyrics.ImportIdempotent | src/lib/store.ts:180-201 | importing the same block twice, whatever the two `Date.now()` values, gives the list that importing it once gave |
| Lyrics.ImportIgnoresOldTexts | src/lib/store.ts:185-191 | the old texts play no part: two lists with the same ids and timestamps at each index import any block alike |
| Lyrics.ImportEditableText | src/lib/store.ts:180-201 | importing the block built from the list's own texts gives back the list, when every text is a clean line |
| Lyrics.EditThenImport | src/lib/store.ts:211-221 | after an edit with a clean line, importing the block `editLyric` wrote back leaves the edited list unchanged |
| Lyrics.EditBlankThenImport | src/lib/store.ts:180-221 | after `editLyric` blanks the middle of three clean lines, a later import gives two entries: the first unchanged, and the middle one's id and timestamp with the third line's text |
| Lyrics.BlankMiddleLines | src/lib/store.ts:182 | the block of a clean line, an empty line and a clean line keeps the two clean lines |
| Lyrics.EditableTextOfTwo | src/lib/store.ts:218 | the block of a two-entry list is the two texts with a line break between them |
| Lyrics.ImportRenamed | src/lib/store.ts:180-201 | importing the block of a list of clean lines into another list with the same ids and timestamps gives the first list |
| Lyrics.ImportMatchesByIndex | src/lib/store.ts:184-191 | for any two entries with clean texts, importing their block with the two lines swapped swaps the texts and leaves ids and timestamps in place: matching is by index, not by text |
| Store.Clamp | src/lib/store.ts:226 | the result lies in `[0, duration]`; it is the time itself inside that range, 0 below it and the duration above it |
| Store.ClampIdempotent | src/lib/store.ts:226 | clamping twice is clamping once |
| Store.ClampMonotone | src/lib/store.ts:226 | clamping keeps the order of two times |
| Store.AudioStore.constructor | src/lib/store.ts:40-51 | the initial state has no lyrics, an empty block, duration and time zero, and no audio element |
| Store.AudioStore.LoadedMetadata | src/lib/store.ts:56-61 | once the metadata loads, the duration and the element (with that duration) are recorded; nothing else changes |
| Store.AudioStore.SetAudioElement | src/lib/store.ts:231-233 | the element is recorded; nothing else changes |
| Store.AudioStore.SetCurrentTime | src/lib/store.ts:93-95 | the time is recorded; nothing else changes |
| Store.AudioStore.AddLyric | src/lib/store.ts:101-114 | the list becomes `Lyrics.AddLyric` of the old list at the current time; nothing else changes |
| Store.AudioStore.SetLyricTimestamp | src/lib/store.ts:116-122 | the list becomes `SetTimestamp` of the old list; nothing else changes |
| Store.AudioStore.ResetLyrics | src/lib/store.ts:124-126 | the list becomes empty; nothing else changes |
| Store.AudioStore.SetEditableLyrics | src/lib/store.ts:173-174 | the block is recorded; nothing else changes |
| Store.AudioStore.ImportLyricsToSync | src/lib/store.ts:180-201 | the list becomes `Import` of the old list and the current block; nothing else changes |
| Store.AudioStore.RemoveLyricTimestamp | src/lib/store.ts:203-209 | the list becomes `RemoveTimestamp` of the old list; nothing else changes |
| Store.AudioStore.EditLyric | src/lib/store.ts:211-221 | the list becomes `EditText` of the old list, and the block becomes the new texts joined by line breaks; nothing else changes |
| Store.AudioStore.AdjustLyricTimestamp | src/lib/store.ts:235-245 | the list becomes `AdjustTimestamp` of the old list; nothing else changes |
| Store.AudioStore.SeekToTime | src/lib/store.ts:223-229 | without an element nothing changes; otherwise the element's position and the store's time both become the clamped time, which lies within the element's duration |
| Background.Clock | src/screens/Background/Background.tsx:54 | the clock text has at least eight characters; for seconds and hundredths below 100 it has the `MM:SS.CC` shape: the minutes as exactly two digits or else with no leading zero, then two digits of seconds and two of hundredths, each denoting its field |
| Background.FieldPositions | src/screens/Background/Background.tsx:54 | in `mm:ss.cc` the colon sits six characters and the dot three characters from the end, and the digit runs around them are the three fields |
| Background.FormatTimestamp | src/screens/Background/Background.tsx:49-55 | a formatted time has the `MM:SS.CC` shape (minutes exactly two digits below 100, otherwise no leading zero), with the fields the whole minutes, the seconds within the minute and the hundredths within the second; a missing time has the shape of time zero |
| Background.ZeroClock | src/screens/Background/Background.tsx:50 | the text `00:00.00` shown for a missing time has the clock shape of zero |
| Background.FormatParse | src/screens/Background/Background.tsx:49-55 | reading a formatted time back gives the time truncated, not rounded, to hundredths of a second |
| Background.ParseClock | src/screens/Background/Background.tsx:51-53 | text of the clock shape for the fields of `ms` reads back as `ms` truncated to hundredths |
| Background.TruncateToHundredths | src/screens/Background/Background.tsx:51-53 | minutes, seconds and hundredths recombine to the time with its sub-hundredth part dropped |
| Background.FormatNullIsZero | src/screens/Background/Background.tsx:50 | a missing time formats as `00:00.00`, the same text as time zero |
| Background.SortKey | src/screens/Background/Background.tsx:101 | the sort key of a synced line is its timestamp, and an unsynced line sorts as 0, the fallback the source uses for a missing timestamp |
| Background.InsertByTime | src/screens/Background/Background.tsx:101 | insertion adds exactly the one line to the multiset of lines |
| Background.InsertSorted | src/screens/Background/Background.tsx:101 | inserting into a time-sorted list keeps it sorted |
| Background.InsertAbove | src/screens/Background/Background.tsx:101 | insertion keeps any lower bound on the times that the inserted line and every line respect |
| Background.InsertWithKey | src/screens/Background/Background.tsx:101 | the inserted line comes before every line with the same time that is already there |
| Background.SortStep | src/screens/Background/Background.tsx:101 | inserting the head of a list into a stable sorted arrangement of its tail gives a stable sorted arrangement of the whole list |
| Background.SortByTime | src/screens/Background/Background.tsx:101 | the sort gives a permutation, sorted by non-decreasing time, in which lines with equal times keep their order |
| Background.LrcLine | src/screens/Background/Background.tsx:102-107 | an exported line is an opening bracket, a field an LRC player reads as the line's time truncated to hundredths, a closing bracket, then the text |
| Background.LrcLines | src/screens/Background/Background.tsx:102-108 | one `[MM:SS.CC]text` line per lyric, in order |
| Background.Export | src/screens/Background/Background.tsx:92-109 | the export is refused exactly when some lyric has no timestamp |
| Background.LrcLineOfSynced | src/screens/Background/Background.tsx:103-107 | for a synced lyric, the bracketed field is its own timestamp, formatted |
| Background.ExportContents | src/screens/Background/Background.tsx:99-109 | when all lines are synced, the export is the LRC lines of a stable, time-sorted permutation of the list, joined by line breaks |
| Background.ClockNoBreak | src/screens/Background/Background.tsx:54 | the clock text holds no line break |
| Background.LrcLineNoBreak | src/screens/Background/Background.tsx:107 | a text without a line break gives an exported line without one |
| Background.ExportLineCount | src/screens/Background/Background.tsx:99-109 | splitting the export at line breaks gives exactly the LRC lines, one per lyric: no header and no trailing line break |
| Background.ExportEmpty | src/screens/Background/Background.tsx:92-109 | an empty list exports as the empty string |
| Background.Shows | src/screens/Background/Background.tsx:124-131 | no contract of its own: "all" shows every line, "unsynced" the lines without a timestamp, "synced" those with one; `FilterPartition` and `FilterAllIsIdentity` state what follows |
| Background.Filtered | src/screens/Background/Background.tsx:123-132 | a view is no longer than the list, and every line in it is a line of the list that the mode shows |
| Background.FilteredIsSubsequence | src/screens/Background/Background.tsx:123-132 | a view is an order-preserving subsequence of the list and holds every line the mode shows |
| Background.FilteredInOrder | src/screens/Background/Background.tsx:123-132 | a view is an order-preserving subsequence of the list |
| Background.FilteredKeepsShown | src/screens/Background/Background.tsx:123-132 | every line of the list that the mode shows is in the view |
| Background.FilteredAll | src/screens/Background/Background.tsx:123-132 | a list whose every line the mode shows is its own view |
| Background.FilterAllIsIdentity | src/screens/Background/Background.tsx:129-130 | the "all" view is the whole list |
| Background.FilterPartition | src/screens/Background/Background.tsx:125-128 | the "unsynced" and "synced" views are disjoint, and together they hold the list's lines with their multiplicities |
| Background.FilterMultisets | src/screens/Background/Background.tsx:125-128 | the "unsynced" and "synced" views together hold the list's lines with their multiplicities |
| Background.AllCount | src/screens/Background/Background.tsx:134 | no contract of its own: the number of lines; `CountsAddUp` relates it to the other two counts |
| Background.UnsyncedCount | src/screens/Background/Background.tsx:135 | at most the number of lines, and zero exactly when every line is synced |
| Background.SyncedCount | src/screens/Background/Background.tsx:136 | at most the number of lines, and zero exactly when no line is synced |
| Background.CountsAddUp | src/screens/Background/Background.tsx:134-136 | the unsynced count plus the synced count is the total count |
| Background.FilteredAppend | src/screens/Background/Background.tsx:123-132 | the view of a concatenation is the concatenation of the views |
| Background.SyncedCountMonotone | src/screens/Background/Background.tsx:136 | if no synced line becomes unsynced, the synced count does not fall |
| Background.SyncedCountGrows | src/screens/Background/Background.tsx:136 | if, in addition, one unsynced line becomes synced, the synced count rises |
| Background.AddLyricCounts | src/lib/store.ts:101-114 | adding a line raises the synced count by one and leaves the unsynced count |
| Background.CurrentLyricIdx | src/screens/Background/Background.tsx:158-168 | -1 exactly when no shown line has a timestamp at or before the current time; otherwise a line with the latest such timestamp, after which every reached line is strictly earlier, so ties go to the later line |
| Background.FirstUnsynced | src/screens/Background/Background.tsx:430 | the index of the first unsynced line; none exactly when every line is synced |
| Background.LastSynced | src/screens/Background/Background.tsx:415-417 | the line the "remove" button acts on is a synced line of the list, and there is none exactly when no line is synced |
| Background.LastSyncedIndex | src/screens/Background/Background.tsx:415-417 | the index of the last synced line; none exactly when no line is synced |
| Background.LastSyncedIsLast | src/screens/Background/Background.tsx:415-417 | the last line of the synced view is the line at the last synced index, and there is none exactly when no line is synced |
| Background.SyncNext | src/screens/Background/Background.tsx:429-433 | the "add timestamp" button keeps the length, and each line either stays as it was or gets the current time as its timestamp; with no unsynced line the list is unchanged, and otherwise the result is `SetTimestamp` of the first unsynced line's id and the current time |
| Background.UnsyncLast | src/screens/Background/Background.tsx:414-419 | the "remove" button keeps the length, and each line either stays as it was or loses its timestamp; with no synced line the list is unchanged, and otherwise the result is `RemoveTimestamp` of the last synced line's id |
| Background.SyncNextEffect | src/screens/Background/Background.tsx:429-433 | with no unsynced line nothing changes; otherwise the first unsynced line gets the current time, the synced count rises, and every line with another id stays as it was |
| Background.UnsyncLastEffect | src/screens/Background/Background.tsx:414-419 | with no synced line nothing changes; otherwise the last synced line becomes unsynced, the synced count falls, and every line with another id stays as it was |

## Left out

- Audio playback: the `<audio>` element, `play`/`pause`, `setIsPlaying`
  and the click-to-seek arithmetic of the player components. These are
  DOM media I/O. The element appears only as its duration and position.
- `setFile`: creating the object URL and waiting for `onloadedmetadata`
  are asynchronous browser I/O. Only the duration and the element it
  records then are modelled, as `LoadedMetadata`. The `file` field it also
  records (src/lib/store.ts:58) is not modelled: nothing in the core reads
  it.
- Metadata: parsing with `music-metadata-browser` and `setMetadata`
  (title, artist, cover). This is a foreign library, and the fields play
  no part in synchronisation.
- `identifyAudio`: a network call to a recognition service.
- The export's download (Blob, object URL, `<a>` element): browser I/O.
  The model returns the file's text.
- The alert when the export is refused: UI. The model returns `Err(IncompleteSync)`.
- The 500 ms `setTimeout` in `setEditableLyrics`: timer scheduling.
  `SetEditableLyrics` only records the block, and `ImportLyricsToSync`
  is a separate, synchronous call.
- `resetAllTimestamps`: the screen calls it, but the store neither
  declares nor defines it, so it has no behaviour to model.
- Playing from a line (`handlePlayAtTime`): it is `seekToTime` followed by
  `setIsPlaying`, and the playing flag is left out.
- The scroll effect when the synced count changes, and the editing and
  tab state of the screen: UI only.
- Floating point: times are whole milliseconds. IEEE-754 effects such as
  `Math.floor((time % 1) * 100)` misrounding, or drift from repeated
  ±0.01 nudges, are not captured.
- `Date.now()`: ids come from a parameter. The model does not show that
  ids are unique across calls, and the source does not ensure it.
- ImportNewIdsDistinct: proved for one `base` shared by every new line. The
  source calls `Date.now()` once per new line (src/lib/store.ts:194), so
  its ids are distinct only while the clock does not step back during the
  import.
- Strings: a Dafny `string` is a sequence of Unicode scalar values, while a
  JavaScript string is a sequence of UTF-16 code units. Texts holding a
  lone surrogate cannot be represented, and lengths of texts outside the
  Basic Multilingual Plane differ.
