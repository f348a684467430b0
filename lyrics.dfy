/** The lyric list of the audio store and the pure rules by which each store
    action computes its new value: append, set, clear and nudge a
    timestamp, edit a text, and rebuild the list from the free-text block.
    Timestamps are whole milliseconds of playback. */
module Lyrics {
  import opened Wrappers
  import opened Text

  /** One line of lyrics; `timestamp` is `None` while the line is unsynced. */
  datatype Lyric = Lyric(id: int, text: string, timestamp: Option<nat>)

  predicate IsSynced(l: Lyric) {
    l.timestamp.Some?
  }

  function Max0(x: int): nat {
    if x < 0 then 0 else x
  }

  /** `addLyric`: one new line at the end, stamped with the current playback
      position; every earlier line stays as it was. */
  function AddLyric(lyrics: seq<Lyric>, text: string, id: int, currentTime: nat): (r: seq<Lyric>)
    ensures |r| == |lyrics| + 1 && r[..|lyrics|] == lyrics
    ensures r[|lyrics|].id == id && r[|lyrics|].text == text
    ensures r[|lyrics|].timestamp == Some(currentTime)
  {
    lyrics + [Lyric(id, text, Some(currentTime))]
  }

  /** `setLyricTimestamp`: every line carrying `id` gets timestamp `t`; ids,
      texts, order and every other line are kept. */
  function SetTimestamp(lyrics: seq<Lyric>, id: int, t: Option<nat>): (r: seq<Lyric>)
    ensures |r| == |lyrics|
    ensures forall i :: 0 <= i < |r| ==> r[i].id == lyrics[i].id && r[i].text == lyrics[i].text
    ensures forall i :: 0 <= i < |r| && lyrics[i].id == id ==> r[i].timestamp == t
    ensures forall i :: 0 <= i < |r| && lyrics[i].id != id ==> r[i] == lyrics[i]
  {
    seq(|lyrics|, i requires 0 <= i < |lyrics| =>
      if lyrics[i].id == id then lyrics[i].(timestamp := t) else lyrics[i])
  }

  /** `removeLyricTimestamp`: every line carrying `id` becomes unsynced;
      nothing else changes. */
  function RemoveTimestamp(lyrics: seq<Lyric>, id: int): (r: seq<Lyric>)
    ensures |r| == |lyrics|
    ensures forall i :: 0 <= i < |r| ==> r[i].id == lyrics[i].id && r[i].text == lyrics[i].text
    ensures forall i :: 0 <= i < |r| && lyrics[i].id == id ==> !IsSynced(r[i])
    ensures forall i :: 0 <= i < |r| && lyrics[i].id != id ==> r[i] == lyrics[i]
  {
    seq(|lyrics|, i requires 0 <= i < |lyrics| =>
      if lyrics[i].id == id then lyrics[i].(timestamp := None) else lyrics[i])
  }

  /** `adjustLyricTimestamp`: a synced line carrying `id` moves by `delta`
      milliseconds but never below zero; an unsynced line stays unsynced and
      every other line is unchanged. */
  function AdjustTimestamp(lyrics: seq<Lyric>, id: int, delta: int): (r: seq<Lyric>)
    ensures |r| == |lyrics|
    ensures forall i :: 0 <= i < |r| ==> r[i].id == lyrics[i].id && r[i].text == lyrics[i].text
    ensures forall i :: 0 <= i < |r| ==> (IsSynced(r[i]) <==> IsSynced(lyrics[i]))
    ensures forall i :: 0 <= i < |r| && lyrics[i].id == id && IsSynced(lyrics[i]) ==>
              var t := lyrics[i].timestamp.value;
              r[i].timestamp == Some(if t + delta < 0 then 0 else t + delta)
    ensures forall i :: 0 <= i < |r| && (lyrics[i].id != id || !IsSynced(lyrics[i])) ==>
              r[i] == lyrics[i]
  {
    seq(|lyrics|, i requires 0 <= i < |lyrics| =>
      var l := lyrics[i];
      if l.id == id && l.timestamp.Some? then l.(timestamp := Some(Max0(l.timestamp.value + delta)))
      else l)
  }

  /** `editLyric`'s list: every line carrying `id` takes the new text as
      given (not trimmed) and keeps its id and timestamp. */
  function EditText(lyrics: seq<Lyric>, id: int, text: string): (r: seq<Lyric>)
    ensures |r| == |lyrics|
    ensures forall i :: 0 <= i < |r| ==> r[i].id == lyrics[i].id && r[i].timestamp == lyrics[i].timestamp
    ensures forall i :: 0 <= i < |r| && lyrics[i].id == id ==> r[i].text == text
    ensures forall i :: 0 <= i < |r| && lyrics[i].id != id ==> r[i] == lyrics[i]
  {
    seq(|lyrics|, i requires 0 <= i < |lyrics| =>
      if lyrics[i].id == id then lyrics[i].(text := text) else lyrics[i])
  }

  function Texts(lyrics: seq<Lyric>): (r: seq<string>)
    ensures |r| == |lyrics| && forall i :: 0 <= i < |r| ==> r[i] == lyrics[i].text
  {
    seq(|lyrics|, i requires 0 <= i < |lyrics| => lyrics[i].text)
  }

  /** `editLyric`'s free-text block: the texts, one per line. */
  function EditableText(lyrics: seq<Lyric>): (r: string)
    ensures |lyrics| >= 1 && (forall i :: 0 <= i < |lyrics| ==> '\n' !in lyrics[i].text) ==>
      Split(r, '\n') == Texts(lyrics)
  {
    var texts := Texts(lyrics);
    var r := Join(texts, '\n');
    assert |texts| >= 1 && (forall k :: 0 <= k < |texts| ==> '\n' !in texts[k]) ==> Split(r, '\n') == texts by {
      if |texts| >= 1 && forall k :: 0 <= k < |texts| ==> '\n' !in texts[k] {
        SplitJoin(texts, '\n');
      }
    }
    r
  }

  /** The lines that are not blank, in order (`filter(line => line.trim() !== '')`). */
  function NonBlank(lines: seq<string>): (r: seq<string>)
    ensures |r| <= |lines|
    ensures forall k :: 0 <= k < |r| ==> !IsBlank(r[k])
    ensures forall k :: 0 <= k < |r| ==> r[k] in lines
  {
    if lines == [] then []
    else if IsBlank(lines[0]) then NonBlank(lines[1..])
    else [lines[0]] + NonBlank(lines[1..])
  }

  /** The lines `importLyricsToSync` keeps from the free-text block, untrimmed. */
  function ImportLines(editable: string): (r: seq<string>)
    ensures |r| <= |Split(editable, '\n')|
    ensures forall k :: 0 <= k < |r| ==> !IsBlank(r[k]) && '\n' !in r[k]
  {
    NonBlank(Split(editable, '\n'))
  }

  /** The entry built for kept line `i`: the old entry at index `i` with
      the trimmed line as its text when there is one, otherwise a new
      unsynced entry with id `base + i`. */
  function Reconciled(lyrics: seq<Lyric>, line: string, i: nat, base: int): (r: Lyric)
    ensures r.text == Trim(line)
    ensures i < |lyrics| ==> r.id == lyrics[i].id && r.timestamp == lyrics[i].timestamp
    ensures i >= |lyrics| ==> r.id == base + i && r.timestamp == None
  {
    if i < |lyrics| then lyrics[i].(text := Trim(line))
    else Lyric(base + i, Trim(line), None)
  }

  /** `importLyricsToSync`: line `i` of the result carries the
      trimmed `i`-th non-blank line of the block; it takes the id and the
      timestamp of the old line at the same index when there is one, and
      otherwise is new, unsynced, with id `base + i` (`base` stands for
      `Date.now()`). Matching is by index, not by text. */
  function Import(lyrics: seq<Lyric>, editable: string, base: int): (r: seq<Lyric>)
    ensures var lines := ImportLines(editable);
      && |r| == |lines|
      && (forall i :: 0 <= i < |r| ==> r[i].text == Trim(lines[i]))
      && (forall i :: 0 <= i < |r| && i < |lyrics| ==>
            r[i].id == lyrics[i].id && r[i].timestamp == lyrics[i].timestamp)
      && (forall i :: |lyrics| <= i < |r| ==> r[i].id == base + i && r[i].timestamp == None)
  {
    var lines := ImportLines(editable);
    seq(|lines|, i requires 0 <= i < |lines| => Reconciled(lyrics, lines[i], i, base))
  }

  // ---------------------------------------------------------------------
  // Properties of the store's rules

  /** Setting a timestamp for an id no line carries leaves the list as it was. */
  lemma SetTimestampAbsent(lyrics: seq<Lyric>, id: int, t: Option<nat>)
    requires forall i :: 0 <= i < |lyrics| ==> lyrics[i].id != id
    ensures SetTimestamp(lyrics, id, t) == lyrics
  {
  }

  /** The last of two timestamps set for the same id is the one that stays. */
  lemma SetTimestampLastWins(lyrics: seq<Lyric>, id: int, t1: Option<nat>, t2: Option<nat>)
    ensures SetTimestamp(SetTimestamp(lyrics, id, t1), id, t2) == SetTimestamp(lyrics, id, t2)
  {
  }

  /** Removing a timestamp is setting it to null. */
  lemma RemoveIsSetNull(lyrics: seq<Lyric>, id: int)
    ensures RemoveTimestamp(lyrics, id) == SetTimestamp(lyrics, id, None)
  {
  }

  /** A nudge is undone by the opposite nudge when it did not hit the floor. */
  lemma AdjustUndo(lyrics: seq<Lyric>, id: int, delta: int)
    requires forall i :: 0 <= i < |lyrics| && lyrics[i].id == id && IsSynced(lyrics[i]) ==>
               lyrics[i].timestamp.value + delta >= 0
    ensures AdjustTimestamp(AdjustTimestamp(lyrics, id, delta), id, -delta) == lyrics
  {
  }

  /** Two nudges in the same direction add up: the floor at zero cannot
      make them differ from one nudge by the sum. */
  lemma AdjustSameDirection(lyrics: seq<Lyric>, id: int, d1: int, d2: int)
    requires (d1 >= 0 && d2 >= 0) || (d1 <= 0 && d2 <= 0)
    ensures AdjustTimestamp(AdjustTimestamp(lyrics, id, d1), id, d2) == AdjustTimestamp(lyrics, id, d1 + d2)
  {
  }

  /** A line that import keeps exactly: non-empty, no whitespace at either
      end, no line break inside. */
  predicate IsCleanLine(x: string) {
    x != [] && IsTrimmed(x) && '\n' !in x
  }

  lemma TrimClean(line: string)
    requires !IsBlank(line) && '\n' !in line
    ensures IsCleanLine(Trim(line))
  {
    TrimIsInfix(line);
    var j := |line| - |TrimStart(line)|;
    assert Trim(line) == line[j..j + |Trim(line)|];
  }

  /** Every line the import produces has a clean text. */
  lemma ImportTextsClean(lyrics: seq<Lyric>, editable: string, base: int)
    ensures forall i :: 0 <= i < |Import(lyrics, editable, base)| ==>
              IsCleanLine(Import(lyrics, editable, base)[i].text)
  {
    var lines := ImportLines(editable);
    var r := Import(lyrics, editable, base);
    forall i | 0 <= i < |r|
      ensures IsCleanLine(r[i].text)
    {
      assert lines[i] in Split(editable, '\n');
      TrimClean(lines[i]);
    }
  }

  /** Lines an import creates get pairwise distinct ids. */
  lemma ImportNewIdsDistinct(lyrics: seq<Lyric>, editable: string, base: int, i: nat, j: nat)
    requires |lyrics| <= i < j < |Import(lyrics, editable, base)|
    ensures Import(lyrics, editable, base)[i].id != Import(lyrics, editable, base)[j].id
  {
  }

  /** Importing the same block twice gives what importing it once gave,
      whatever ids the second import would have handed out. */
  lemma ImportIdempotent(lyrics: seq<Lyric>, editable: string, base1: int, base2: int)
    ensures Import(Import(lyrics, editable, base1), editable, base2) == Import(lyrics, editable, base1)
  {
  }

  lemma {:induction false} NonBlankKeepsAll(lines: seq<string>)
    requires forall k :: 0 <= k < |lines| ==> !IsBlank(lines[k])
    ensures NonBlank(lines) == lines
  {
    if lines != [] {
      NonBlankKeepsAll(lines[1..]);
      assert [lines[0]] + lines[1..] == lines;
    }
  }

  /** A single line is kept exactly when it is not blank. */
  lemma NonBlankOne(x: string)
    ensures NonBlank([x]) == if IsBlank(x) then [] else [x]
  {
    assert [x][1..] == [];
  }

  /** The filter works line by line: the kept lines of a concatenation are
      the kept lines of each part, in order. With `NonBlankOne` this says
      that every non-blank line is kept, in order, as often as it occurs. */
  lemma {:induction false} NonBlankAppend(a: seq<string>, b: seq<string>)
    ensures NonBlank(a + b) == NonBlank(a) + NonBlank(b)
  {
    if a == [] {
      assert a + b == b;
    } else {
      var ab := a + b;
      assert ab[0] == a[0] && ab[1..] == a[1..] + b;
      NonBlankAppend(a[1..], b);
    }
  }

  /** Importing the block that `editLyric` writes back gives back the list
      itself, provided every text is a clean line. */
  lemma ImportEditableText(lyrics: seq<Lyric>, base: int)
    requires forall i :: 0 <= i < |lyrics| ==> IsCleanLine(lyrics[i].text)
    ensures Import(lyrics, EditableText(lyrics), base) == lyrics
  {
    var xs := Texts(lyrics);
    BlockLines(xs);
    var r := Import(lyrics, EditableText(lyrics), base);
    forall i | 0 <= i < |r| ensures r[i] == lyrics[i] {
      TrimTrimmed(xs[i]);
    }
  }

  /** The kept lines of a block of clean lines are those lines. */
  lemma BlockLines(xs: seq<string>)
    requires forall k :: 0 <= k < |xs| ==> IsCleanLine(xs[k])
    ensures ImportLines(Join(xs, '\n')) == xs
  {
    if xs == [] {
      assert Split(Join(xs, '\n'), '\n') == [[]];
      assert IsBlank([]);
    } else {
      SplitJoin(xs, '\n');
      forall k | 0 <= k < |xs| ensures !IsBlank(xs[k]) {
        assert !IsSpace(xs[k][0]);
      }
      NonBlankKeepsAll(xs);
    }
  }

  /** After an edit with a clean line, a later import of the block that
      `editLyric` wrote back leaves the edited list as it is. */
  lemma EditThenImport(lyrics: seq<Lyric>, id: int, newText: string, base: int)
    requires forall i :: 0 <= i < |lyrics| ==> IsCleanLine(lyrics[i].text)
    requires IsCleanLine(newText)
    ensures var r := EditText(lyrics, id, newText);
      Import(r, EditableText(r), base) == r
  {
    var r := EditText(lyrics, id, newText);
    assert forall i :: 0 <= i < |r| ==> IsCleanLine(r[i].text);
    ImportEditableText(r, base);
  }

  /** `editLyric` accepts an empty text, and a later import then drops that
      line and shifts: the next line's text moves onto the blanked line's
      id and timestamp, and the last entry disappears. */
  lemma EditBlankThenImport(x: Lyric, y: Lyric, z: Lyric, base: int)
    requires IsCleanLine(x.text) && IsCleanLine(z.text)
    requires x.id != y.id && z.id != y.id
    ensures var r := EditText([x, y, z], y.id, []);
      Import(r, EditableText(r), base) == [x, y.(text := z.text)]
  {
    var r := EditText([x, y, z], y.id, []);
    assert r == [x, y.(text := []), z];
    assert Texts(r) == [x.text, [], z.text];
    BlankMiddleLines(x.text, z.text);
    var out := Import(r, EditableText(r), base);
    TrimTrimmed(x.text);
    TrimTrimmed(z.text);
    assert out[0] == x && out[1] == y.(text := z.text);
  }

  /** The kept lines of the block `a`, blank line, `c`. */
  lemma BlankMiddleLines(a: string, c: string)
    requires IsCleanLine(a) && IsCleanLine(c)
    ensures ImportLines(Join([a, [], c], '\n')) == [a, c]
  {
    var xs := [a, [], c];
    SplitJoin(xs, '\n');
    assert xs == [a] + ([[]] + [c]);
    assert !IsBlank(a) && !IsBlank(c) by {
      assert !IsSpace(a[0]) && !IsSpace(c[0]);
    }
    NonBlankAppend([a], [[]] + [c]);
    NonBlankAppend([[]], [c]);
    NonBlankOne(a);
    NonBlankOne([]);
    NonBlankOne(c);
  }

  lemma EditableTextOfTwo(x: Lyric, y: Lyric)
    ensures EditableText([x, y]) == x.text + ['\n'] + y.text
  {
    assert Texts([x, y]) == [x.text, y.text];
    assert [x.text, y.text][1..] == [y.text];
    assert Join([x.text, y.text], '\n') == x.text + ['\n'] + Join([y.text], '\n');
  }

  /** The old texts play no part in an import: two lists with the same ids
      and timestamps at the same indices import any block alike. */
  lemma ImportIgnoresOldTexts(l1: seq<Lyric>, l2: seq<Lyric>, editable: string, base: int)
    requires |l1| == |l2|
    requires forall i :: 0 <= i < |l1| ==> l1[i].id == l2[i].id && l1[i].timestamp == l2[i].timestamp
    ensures Import(l1, editable, base) == Import(l2, editable, base)
  {
    var r1, r2 := Import(l1, editable, base), Import(l2, editable, base);
    assert forall i :: 0 <= i < |r1| ==> r1[i] == r2[i];
  }

  /** Matching is by position: after the two lines of the block are swapped,
      each entry keeps its id and timestamp and now carries the text of the
      other line. */
  lemma ImportMatchesByIndex(x: Lyric, y: Lyric, base: int)
    requires IsCleanLine(x.text) && IsCleanLine(y.text)
    ensures Import([x, y], y.text + ['\n'] + x.text, base) == [x.(text := y.text), y.(text := x.text)]
  {
    var swapped := [x.(text := y.text), y.(text := x.text)];
    EditableTextOfTwo(swapped[0], swapped[1]);
    ImportRenamed([x, y], swapped, base);
  }

  /** Importing the block of another list with the same ids and timestamps
      gives that list. */
  lemma ImportRenamed(before: seq<Lyric>, after: seq<Lyric>, base: int)
    requires |before| == |after|
    requires forall i :: 0 <= i < |before| ==> before[i].id == after[i].id && before[i].timestamp == after[i].timestamp
    requires forall i :: 0 <= i < |after| ==> IsCleanLine(after[i].text)
    ensures Import(before, EditableText(after), base) == after
  {
    ImportEditableText(after, base);
    ImportIgnoresOldTexts(before, after, EditableText(after), base);
  }
}
