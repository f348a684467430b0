/** The audio store: the mutable state behind both screens. Every action
    replaces some of its fields with a value computed from the old state by
    the rules of module `Lyrics`. */
module Store {
  import opened Wrappers
  import opened Lyrics

  /** The part of the `<audio>` element the store relies on: its duration
      and its playback position, in milliseconds. */
  datatype Media = Media(duration: nat, position: nat)

  /** `Math.max(0, Math.min(time, duration))`: the nearest point of
      `[0, duration]` to `time`. */
  function Clamp(time: int, duration: nat): (r: nat)
    ensures r <= duration
    ensures 0 <= time <= duration ==> r == time
    ensures time < 0 ==> r == 0
    ensures time > duration ==> r == duration
  {
    if time < 0 then 0 else if time > duration then duration else time
  }

  /** A position already inside the track is left where it is, so seeking
      twice to the same place is seeking once. */
  lemma ClampIdempotent(time: int, duration: nat)
    ensures Clamp(Clamp(time, duration), duration) == Clamp(time, duration)
  {
  }

  /** Clamping keeps the order of the two times it is given. */
  lemma ClampMonotone(t1: int, t2: int, duration: nat)
    requires t1 <= t2
    ensures Clamp(t1, duration) <= Clamp(t2, duration)
  {
  }

  class AudioStore {
    var lyrics: seq<Lyric>
    var editableLyrics: string
    var duration: nat
    var currentTime: nat
    var audio: Option<Media>

    /** The initial state: no track, no lyrics, time zero. */
    constructor ()
      ensures lyrics == [] && editableLyrics == []
      ensures duration == 0 && currentTime == 0 && audio == None
    {
      lyrics := [];
      editableLyrics := [];
      duration := 0;
      currentTime := 0;
      audio := None;
    }

    /** The step of `setFile` that runs once the track's metadata has
        loaded: the duration and the element are recorded together. */
    method LoadedMetadata(d: nat)
      modifies this`duration, this`audio
      ensures duration == d && audio == Some(Media(d, 0))
    {
      duration := d;
      audio := Some(Media(d, 0));
    }

    /** `setAudioElement`: the store now drives this element. */
    method SetAudioElement(element: Media)
      modifies this`audio
      ensures audio == Some(element)
    {
      audio := Some(element);
    }

    /** `setCurrentTime`, called as playback advances. */
    method SetCurrentTime(time: nat)
      modifies this`currentTime
      ensures currentTime == time
    {
      currentTime := time;
    }

    /** `addLyric`: appends the text, stamped with the current time; `now`
        stands for `Date.now()`. */
    method AddLyric(text: string, now: int)
      modifies this`lyrics
      ensures lyrics == Lyrics.AddLyric(old(lyrics), text, now, currentTime)
    {
      lyrics := Lyrics.AddLyric(lyrics, text, now, currentTime);
    }

    /** `setLyricTimestamp`. */
    method SetLyricTimestamp(id: int, timestamp: Option<nat>)
      modifies this`lyrics
      ensures lyrics == SetTimestamp(old(lyrics), id, timestamp)
    {
      lyrics := SetTimestamp(lyrics, id, timestamp);
    }

    /** `resetLyrics`: empties the list and nothing else; the free-text
        block keeps its contents. */
    method ResetLyrics()
      modifies this`lyrics
      ensures lyrics == []
    {
      lyrics := [];
    }

    /** `setEditableLyrics` without its delayed call to
        `importLyricsToSync`. */
    method SetEditableLyrics(text: string)
      modifies this`editableLyrics
      ensures editableLyrics == text
    {
      editableLyrics := text;
    }

    /** `importLyricsToSync`: rebuilds the list from the free-text block;
        `now` stands for `Date.now()`. */
    method ImportLyricsToSync(now: int)
      modifies this`lyrics
      ensures lyrics == Import(old(lyrics), editableLyrics, now)
    {
      lyrics := Import(lyrics, editableLyrics, now);
    }

    /** `removeLyricTimestamp`. */
    method RemoveLyricTimestamp(id: int)
      modifies this`lyrics
      ensures lyrics == RemoveTimestamp(old(lyrics), id)
    {
      lyrics := RemoveTimestamp(lyrics, id);
    }

    /** `editLyric`: replaces the text and rewrites the free-text block
        from the new list. */
    method EditLyric(id: int, newText: string)
      modifies this`lyrics, this`editableLyrics
      ensures lyrics == EditText(old(lyrics), id, newText)
      ensures editableLyrics == EditableText(lyrics)
    {
      lyrics := EditText(lyrics, id, newText);
      editableLyrics := EditableText(lyrics);
    }

    /** `adjustLyricTimestamp`. */
    method AdjustLyricTimestamp(id: int, adjustment: int)
      modifies this`lyrics
      ensures lyrics == AdjustTimestamp(old(lyrics), id, adjustment)
    {
      lyrics := AdjustTimestamp(lyrics, id, adjustment);
    }

    /** `seekToTime`: without an element nothing happens; otherwise the
        element's position and the store's time both move to `time`
        clamped to the element's duration. */
    method SeekToTime(time: int)
      modifies this`audio, this`currentTime
      ensures old(audio).None? ==> audio == old(audio) && currentTime == old(currentTime)
      ensures old(audio).Some? ==>
        && currentTime == Clamp(time, old(audio).value.duration)
        && audio == Some(old(audio).value.(position := currentTime))
      ensures old(audio).Some? ==> currentTime <= audio.value.duration
    {
      match audio
      case None =>
      case Some(element) =>
        var position := Clamp(time, element.duration);
        audio := Some(element.(position := position));
        currentTime := position;
    }
  }
}
