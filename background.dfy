/** What the synchronisation screen derives from the store's lyric list:
    the `MM:SS.CC` timestamp text, the LRC export behind the "Finish"
    button, the three filter views and their counts, the line highlighted
    as now playing, and the lines the two bottom buttons act on. */
module Background {
  import opened Wrappers
  import opened Text
  import opened Lyrics

  // ---------------------------------------------------------------------
  // Timestamp text

  /** `formatTimestamp`: minutes (at least two digits), seconds within the
      minute and hundredths of a second (two digits each, truncated); a
      missing timestamp reads as zero. */
  function FormatTimestamp(time: Option<nat>): (r: string)
    ensures var ms := if time.Some? then time.value else 0;
      ClockShape(r, ms / 60000, ms / 1000 % 60, ms % 1000 / 10)
  {
    match time
    case None =>
      ZeroClock();
      "00:00.00"
    case Some(ms) => Clock(ms / 60000, ms / 1000 % 60, ms % 1000 / 10)
  }

  /** The three fields, each through `toString()` and `padStart(2, '0')`,
      between a colon and a dot. Fields below 100 give the clock shape. */
  function Clock(m: nat, sec: nat, hs: nat): (r: string)
    ensures |r| >= 8
    ensures sec < 100 && hs < 100 ==> ClockShape(r, m, sec, hs)
  {
    var mm, ss, cc := PadStart2(NatToString(m)), PadStart2(NatToString(sec)), PadStart2(NatToString(hs));
    PaddedMinutes(NatToString(m));
    FieldPositions(mm, ss, cc, m, sec, hs);
    mm + ":" + ss + "." + cc
  }

  /** Padding a numeral adds a leading zero only up to two digits. */
  lemma PaddedMinutes(s: string)
    requires |s| == 1 || (|s| > 1 && s[0] != '0')
    ensures |PadStart2(s)| == 2 || PadStart2(s)[0] != '0'
  {
  }

  /** Reads `MM:SS.CC` back into milliseconds: the reading an LRC player
      gives a timestamp field. */
  function ParseTimestamp(s: string): Option<nat> {
    var n := |s|;
    if n >= 8 && s[n - 6] == ':' && s[n - 3] == '.'
       && IsDigits(s[..n - 6]) && IsDigits(s[n - 5..n - 3]) && IsDigits(s[n - 2..])
    then Some(DecimalValue(s[..n - 6]) * 60000 + DecimalValue(s[n - 5..n - 3]) * 1000
              + DecimalValue(s[n - 2..]) * 10)
    else None
  }

  /** `r` reads as the clock text `MM:SS.CC` of minutes `m`, seconds `sec`
      and hundredths `hs`: a colon six characters and a dot three characters
      from the end, and decimal digits denoting the three fields around
      them, the seconds and hundredths two digits each, the minutes exactly
      two digits or else without a leading zero. */
  predicate ClockShape(r: string, m: nat, sec: nat, hs: nat) {
    var n := |r|;
    && n >= 8 && r[n - 6] == ':' && r[n - 3] == '.' && (n == 8 || r[0] != '0')
    && IsDigits(r[..n - 6]) && DecimalValue(r[..n - 6]) == m
    && IsDigits(r[n - 5..n - 3]) && DecimalValue(r[n - 5..n - 3]) == sec
    && IsDigits(r[n - 2..]) && DecimalValue(r[n - 2..]) == hs
  }

  lemma FieldPositions(mm: string, ss: string, cc: string, m: nat, sec: nat, hs: nat)
    requires |mm| >= 2 && |ss| >= 2 && |cc| >= 2
    requires IsDigits(mm) && IsDigits(ss) && IsDigits(cc)
    requires DecimalValue(mm) == m && DecimalValue(ss) == sec && DecimalValue(cc) == hs
    requires |mm| == 2 || mm[0] != '0'
    ensures |mm + ":" + ss + "." + cc| >= 8
    ensures |ss| == 2 && |cc| == 2 ==> ClockShape(mm + ":" + ss + "." + cc, m, sec, hs)
  {
    if |ss| == 2 && |cc| == 2 {
      FieldSlices(mm, ss, cc);
    }
  }

  /** The text shown for a missing timestamp is the clock text of zero. */
  lemma ZeroClock()
    ensures ClockShape("00:00.00", 0, 0, 0)
  {
    assert DecimalValue("0") == 0;
    assert "00:00.00" == "00" + ":" + "00" + "." + "00";
    FieldPositions("00", "00", "00", 0, 0, 0);
  }

  lemma FieldSlices(mm: string, ss: string, cc: string)
    requires |ss| == 2 && |cc| == 2
    ensures var r := mm + ":" + ss + "." + cc; var n := |r|;
      n == |mm| + 6 && r[..n - 6] == mm && r[n - 6] == ':' && r[n - 5..n - 3] == ss
      && r[n - 3] == '.' && r[n - 2..] == cc && (|mm| > 0 ==> r[0] == mm[0])
  {
  }

  lemma TruncateToHundredths(ms: nat)
    ensures ms / 60000 * 60000 + ms / 1000 % 60 * 1000 + ms % 1000 / 10 * 10 == ms - ms % 10
  {
    var q, r1 := ms / 60000, ms % 60000;
    assert ms == 60000 * q + r1;
    assert ms / 1000 == 60 * q + r1 / 1000;
    assert ms / 1000 % 60 == r1 / 1000;
    assert ms % 1000 == r1 % 1000;
    assert ms % 10 == r1 % 10;
  }

  /** Text of the clock shape of the fields of `ms` reads back as `ms`
      truncated to hundredths of a second. */
  lemma ParseClock(r: string, ms: nat)
    requires ClockShape(r, ms / 60000, ms / 1000 % 60, ms % 1000 / 10)
    ensures ParseTimestamp(r) == Some(ms - ms % 10)
  {
    TruncateToHundredths(ms);
  }

  /** Reading a formatted timestamp gives back the time truncated to
      hundredths of a second. */
  lemma {:induction false} FormatParse(ms: nat)
    ensures ParseTimestamp(FormatTimestamp(Some(ms))) == Some(ms - ms % 10)
  {
    ParseClock(FormatTimestamp(Some(ms)), ms);
  }

  /** A missing timestamp and a timestamp of zero look the same. */
  lemma FormatNullIsZero()
    ensures FormatTimestamp(None) == FormatTimestamp(Some(0))
  {
    ZeroPadded();
    ClockOfZeroes(PadStart2(NatToString(0)));
    FormatOfZero();
  }

  lemma FormatOfZero()
    ensures FormatTimestamp(Some(0)) == Clock(0, 0, 0)
  {
    assert 0 / 60000 == 0 / 1000 % 60 == 0 % 1000 / 10 == 0;
  }

  /** `z` names the padded zero digit so that the unfolding of `Clock`
      below stays one step; passing it in keeps this proof small. */
  lemma ClockOfZeroes(z: string)
    requires z == PadStart2(NatToString(0)) && z == "00"
    ensures Clock(0, 0, 0) == "00:00.00"
  {
    assert Clock(0, 0, 0) == z + ":" + z + "." + z;
  }

  lemma ZeroPadded()
    ensures PadStart2(NatToString(0)) == "00"
  {
    assert NatToString(0) == [DigitChar(0)] == "0";
  }

  // ---------------------------------------------------------------------
  // Export

  datatype ExportError = IncompleteSync

  /** The comparator's key, `lyric.timestamp || 0`. */
  function SortKey(l: Lyric): (r: nat)
    ensures IsSynced(l) ==> l.timestamp == Some(r)
    ensures !IsSynced(l) ==> r == 0
  {
    match l.timestamp
    case Some(t) => t
    case None => 0
  }

  predicate SortedByTime(ls: seq<Lyric>) {
    forall i, j :: 0 <= i < j < |ls| ==> SortKey(ls[i]) <= SortKey(ls[j])
  }

  /** The lines whose key is `k`, in order. */
  function WithKey(ls: seq<Lyric>, k: nat): seq<Lyric> {
    if ls == [] then []
    else if SortKey(ls[0]) == k then [ls[0]] + WithKey(ls[1..], k)
    else WithKey(ls[1..], k)
  }

  /** Puts `x` into a list before its first line that is not earlier
      than `x`. */
  function InsertByTime(x: Lyric, s: seq<Lyric>): (r: seq<Lyric>)
    ensures multiset(r) == multiset(s) + multiset{x}
  {
    if s == [] || SortKey(x) <= SortKey(s[0]) then
      [x] + s
    else
      assert s == [s[0]] + s[1..];
      [s[0]] + InsertByTime(x, s[1..])
  }

  lemma {:induction false} InsertSorted(x: Lyric, s: seq<Lyric>)
    requires SortedByTime(s)
    ensures SortedByTime(InsertByTime(x, s))
  {
    if s == [] || SortKey(x) <= SortKey(s[0]) {
      SortedCons(x, s);
    } else {
      InsertSorted(x, s[1..]);
      InsertAbove(x, s[1..], SortKey(s[0]));
      SortedCons(s[0], InsertByTime(x, s[1..]));
    }
  }

  /** Insertion keeps a lower bound that `x` and every line respect. */
  lemma {:induction false} InsertAbove(x: Lyric, s: seq<Lyric>, lo: nat)
    requires lo <= SortKey(x)
    requires forall j :: 0 <= j < |s| ==> lo <= SortKey(s[j])
    ensures forall j :: 0 <= j < |InsertByTime(x, s)| ==> lo <= SortKey(InsertByTime(x, s)[j])
  {
    if s != [] && SortKey(x) > SortKey(s[0]) {
      InsertAbove(x, s[1..], lo);
    }
  }

  /** A line no later than every line of a sorted list can go in front. */
  lemma SortedCons(x: Lyric, s: seq<Lyric>)
    requires SortedByTime(s)
    requires forall j :: 0 <= j < |s| ==> SortKey(x) <= SortKey(s[j])
    ensures SortedByTime([x] + s)
  {
  }

  /** Inserting `x` puts it ahead of every line with the same time. */
  lemma {:induction false} InsertWithKey(x: Lyric, s: seq<Lyric>, k: nat)
    ensures WithKey(InsertByTime(x, s), k) == (if SortKey(x) == k then [x] else []) + WithKey(s, k)
  {
    var r := InsertByTime(x, s);
    if s == [] || SortKey(x) <= SortKey(s[0]) {
      assert r[1..] == s;
    } else {
      InsertWithKey(x, s[1..], k);
      assert r[1..] == InsertByTime(x, s[1..]);
    }
  }

  /** The stable sort of `handleFinish`: ascending by time, a permutation of
      its input, and lines with equal times keep their relative order. */
  function SortByTime(ls: seq<Lyric>): (r: seq<Lyric>)
    ensures multiset(r) == multiset(ls)
    ensures SortedByTime(r)
    ensures forall k :: WithKey(r, k) == WithKey(ls, k)
  {
    if ls == [] then []
    else
      var t := SortByTime(ls[1..]);
      SortStep(ls, t);
      InsertByTime(ls[0], t)
  }

  /** Inserting the head of a list into a sorted arrangement of its tail
      sorts the whole list. */
  lemma SortStep(ls: seq<Lyric>, t: seq<Lyric>)
    requires ls != []
    requires multiset(t) == multiset(ls[1..]) && SortedByTime(t)
    requires forall k :: WithKey(t, k) == WithKey(ls[1..], k)
    ensures var r := InsertByTime(ls[0], t);
      && multiset(r) == multiset(ls) && SortedByTime(r)
      && forall k :: WithKey(r, k) == WithKey(ls, k)
  {
    assert ls == [ls[0]] + ls[1..];
    InsertSorted(ls[0], t);
    forall k ensures WithKey(InsertByTime(ls[0], t), k) == WithKey(ls, k) {
      InsertWithKey(ls[0], t, k);
    }
  }

  /** One exported line, `[MM:SS.CC]text`. */
  function LrcLine(l: Lyric): (r: string)
    ensures LrcShape(r, l.text, SortKey(l))
  {
    var t := SortKey(l);
    var f := FormatTimestamp(Some(t));
    FormatParse(t);
    Bracketed(f, l.text, t);
    "[" + f + "]" + l.text
  }

  /** `r` is an LRC line for `text` at time `t`: an opening bracket, a
      field an LRC player reads as `t` truncated to hundredths of a
      second, a closing bracket, then the text. */
  predicate LrcShape(r: string, text: string, t: nat) {
    var n := |r|;
    && n >= |text| + 10 && r[0] == '[' && r[n - |text| - 1] == ']' && r[n - |text|..] == text
    && ParseTimestamp(r[1..n - |text| - 1]) == Some(t - t % 10)
  }

  lemma Bracketed(f: string, text: string, t: nat)
    requires |f| >= 8 && ParseTimestamp(f) == Some(t - t % 10)
    ensures LrcShape("[" + f + "]" + text, text, t)
  {
    var r := "[" + f + "]" + text;
    assert r[1..|r| - |text| - 1] == f;
  }

  function LrcLines(ls: seq<Lyric>): (r: seq<string>)
    ensures |r| == |ls| && forall k :: 0 <= k < |r| ==> r[k] == LrcLine(ls[k])
  {
    seq(|ls|, k requires 0 <= k < |ls| => LrcLine(ls[k]))
  }

  /** `handleFinish` without the download: refused while any line is
      unsynced; otherwise the synced lines sorted by time, one LRC line
      each, joined by line breaks. */
  function Export(lyrics: seq<Lyric>): (r: Result<string, ExportError>)
    ensures r.Err? <==> exists i :: 0 <= i < |lyrics| && !IsSynced(lyrics[i])
  {
    if exists i :: 0 <= i < |lyrics| && !IsSynced(lyrics[i]) then Err(IncompleteSync)
    else Ok(Join(LrcLines(SortByTime(Filtered(lyrics, Synced))), '\n'))
  }

  /** The timestamp field of an exported line is the line's own timestamp,
      formatted. */
  lemma LrcLineOfSynced(l: Lyric)
    requires IsSynced(l)
    ensures LrcLine(l) == "[" + FormatTimestamp(l.timestamp) + "]" + l.text
  {
  }

  /** What a successful export holds: one LRC line for every lyric, taken
      from a stable, time-sorted permutation of the list. */
  lemma ExportContents(lyrics: seq<Lyric>)
    requires forall i :: 0 <= i < |lyrics| ==> IsSynced(lyrics[i])
    ensures var s := SortByTime(lyrics);
      && Export(lyrics) == Ok(Join(LrcLines(s), '\n'))
      && multiset(s) == multiset(lyrics)
      && SortedByTime(s)
      && (forall k :: WithKey(s, k) == WithKey(lyrics, k))
  {
    FilteredAll(lyrics, Synced);
  }

  /** Clock text holds no line break. */
  lemma ClockNoBreak(r: string, m: nat, sec: nat, hs: nat)
    requires ClockShape(r, m, sec, hs)
    ensures '\n' !in r
  {
    var n := |r|;
    forall p | 0 <= p < n ensures r[p] != '\n' {
      if p < n - 6 {
        assert r[..n - 6][p] == r[p];
      } else if n - 5 <= p < n - 3 {
        assert r[n - 5..n - 3][p - (n - 5)] == r[p];
      } else if n - 2 <= p {
        assert r[n - 2..][p - (n - 2)] == r[p];
      }
    }
  }

  /** A text without a line break gives an exported line without one. */
  lemma LrcLineNoBreak(l: Lyric)
    requires '\n' !in l.text
    ensures '\n' !in LrcLine(l)
  {
    var t := SortKey(l);
    var f := FormatTimestamp(Some(t));
    ClockNoBreak(f, t / 60000, t / 1000 % 60, t % 1000 / 10);
    BracketedNoBreak(f, l.text);
  }

  lemma BracketedNoBreak(f: string, text: string)
    requires '\n' !in f && '\n' !in text
    ensures '\n' !in "[" + f + "]" + text
  {
  }

  /** An export holds exactly one line per lyric: no header and no trailing
      line break, provided no text holds a line break itself. */
  lemma ExportLineCount(lyrics: seq<Lyric>)
    requires |lyrics| > 0
    requires forall i :: 0 <= i < |lyrics| ==> IsSynced(lyrics[i]) && '\n' !in lyrics[i].text
    ensures Export(lyrics).Ok?
    ensures Split(Export(lyrics).value, '\n') == LrcLines(SortByTime(lyrics))
    ensures |Split(Export(lyrics).value, '\n')| == |lyrics|
  {
    ExportContents(lyrics);
    var s := SortByTime(lyrics);
    var lines := LrcLines(s);
    forall k | 0 <= k < |lines| ensures '\n' !in lines[k] {
      assert s[k] in multiset(lyrics);
      LrcLineNoBreak(s[k]);
    }
    SplitJoin(lines, '\n');
  }

  /** An empty list exports as an empty file. */
  lemma ExportEmpty()
    ensures Export([]) == Ok("")
  {
    assert SortByTime(Filtered([], Synced)) == [];
  }

  // ---------------------------------------------------------------------
  // Filter views and counts

  datatype FilterMode = All | Unsynced | Synced

  predicate Shows(mode: FilterMode, l: Lyric) {
    match mode
    case All => true
    case Unsynced => !IsSynced(l)
    case Synced => IsSynced(l)
  }

  /** `a` is `b` with some entries left out, the rest in their order. */
  predicate IsSubsequence(a: seq<Lyric>, b: seq<Lyric>)
    decreases |b|
  {
    if a == [] then true
    else if b == [] then false
    else (a[0] == b[0] && IsSubsequence(a[1..], b[1..])) || IsSubsequence(a, b[1..])
  }

  /** `filteredLyrics`: the lines the mode shows, in list order. */
  function Filtered(ls: seq<Lyric>, mode: FilterMode): (r: seq<Lyric>)
    ensures |r| <= |ls|
    ensures forall k :: 0 <= k < |r| ==> Shows(mode, r[k]) && r[k] in ls
  {
    if ls == [] then []
    else if Shows(mode, ls[0]) then [ls[0]] + Filtered(ls[1..], mode)
    else Filtered(ls[1..], mode)
  }

  /** A view keeps the order of the list and leaves out only lines the mode
      hides. */
  lemma FilteredIsSubsequence(ls: seq<Lyric>, mode: FilterMode)
    ensures IsSubsequence(Filtered(ls, mode), ls)
    ensures forall i :: 0 <= i < |ls| && Shows(mode, ls[i]) ==> ls[i] in Filtered(ls, mode)
  {
    FilteredInOrder(ls, mode);
    FilteredKeepsShown(ls, mode);
  }

  lemma {:induction false} FilteredInOrder(ls: seq<Lyric>, mode: FilterMode)
    ensures IsSubsequence(Filtered(ls, mode), ls)
  {
    if ls != [] {
      FilteredInOrder(ls[1..], mode);
      var rest := Filtered(ls[1..], mode);
      if Shows(mode, ls[0]) {
        assert ([ls[0]] + rest)[1..] == rest;
      }
    }
  }

  lemma {:induction false} FilteredKeepsShown(ls: seq<Lyric>, mode: FilterMode)
    ensures forall i :: 0 <= i < |ls| && Shows(mode, ls[i]) ==> ls[i] in Filtered(ls, mode)
  {
    if ls != [] {
      FilteredKeepsShown(ls[1..], mode);
      forall i | 1 <= i < |ls| && Shows(mode, ls[i]) ensures ls[i] in Filtered(ls, mode) {
        assert ls[1..][i - 1] == ls[i];
      }
    }
  }

  lemma {:induction false} FilteredAll(ls: seq<Lyric>, mode: FilterMode)
    requires forall i :: 0 <= i < |ls| ==> Shows(mode, ls[i])
    ensures Filtered(ls, mode) == ls
  {
    if ls != [] {
      FilteredAll(ls[1..], mode);
      assert [ls[0]] + ls[1..] == ls;
    }
  }

  /** The "all" view is the whole list. */
  lemma FilterAllIsIdentity(ls: seq<Lyric>)
    ensures Filtered(ls, All) == ls
  {
    FilteredAll(ls, All);
  }

  /** The "unsynced" and "synced" views split the list: every line is in
      exactly one of them, and together they hold the list's lines with
      their multiplicities. */
  lemma {:induction false} FilterPartition(ls: seq<Lyric>)
    ensures multiset(Filtered(ls, Unsynced)) + multiset(Filtered(ls, Synced)) == multiset(ls)
    ensures forall x :: x in Filtered(ls, Unsynced) ==> x !in Filtered(ls, Synced)
  {
    FilterMultisets(ls);
  }

  lemma {:induction false} FilterMultisets(ls: seq<Lyric>)
    ensures multiset(Filtered(ls, Unsynced)) + multiset(Filtered(ls, Synced)) == multiset(ls)
  {
    if ls != [] {
      FilterMultisets(ls[1..]);
      var u, v := Filtered(ls[1..], Unsynced), Filtered(ls[1..], Synced);
      assert multiset(ls) == multiset{ls[0]} + multiset(ls[1..]) by {
        assert ls == [ls[0]] + ls[1..];
      }
      if IsSynced(ls[0]) {
        assert Filtered(ls, Synced) == [ls[0]] + v;
      } else {
        assert Filtered(ls, Unsynced) == [ls[0]] + u;
      }
    }
  }

  function AllCount(ls: seq<Lyric>): nat { |ls| }

  /** The "unsynced" count: zero exactly when every line is synced. */
  function UnsyncedCount(ls: seq<Lyric>): (r: nat)
    ensures r <= |ls|
    ensures r == 0 <==> forall i :: 0 <= i < |ls| ==> IsSynced(ls[i])
  {
    FilteredIsSubsequence(ls, Unsynced);
    |Filtered(ls, Unsynced)|
  }

  /** The "synced" count: zero exactly when no line is synced. */
  function SyncedCount(ls: seq<Lyric>): (r: nat)
    ensures r <= |ls|
    ensures r == 0 <==> forall i :: 0 <= i < |ls| ==> !IsSynced(ls[i])
  {
    FilteredIsSubsequence(ls, Synced);
    |Filtered(ls, Synced)|
  }

  /** The counts on the three filter buttons add up. */
  lemma CountsAddUp(ls: seq<Lyric>)
    ensures UnsyncedCount(ls) + SyncedCount(ls) == AllCount(ls)
  {
    FilterPartition(ls);
    assert |multiset(Filtered(ls, Unsynced)) + multiset(Filtered(ls, Synced))| == |multiset(ls)|;
  }

  lemma {:induction false} FilteredAppend(a: seq<Lyric>, b: seq<Lyric>, mode: FilterMode)
    ensures Filtered(a + b, mode) == Filtered(a, mode) + Filtered(b, mode)
  {
    if a == [] {
      assert a + b == b;
    } else {
      var ab := a + b;
      assert ab[0] == a[0] && ab[1..] == a[1..] + b;
      FilteredAppend(a[1..], b, mode);
      if Shows(mode, a[0]) {
        assert Filtered(ab, mode) == [a[0]] + Filtered(a[1..] + b, mode);
      } else {
        assert Filtered(ab, mode) == Filtered(a[1..] + b, mode);
      }
    }
  }

  /** If every synced line stays synced and line `i` becomes synced, the
      synced count grows. */
  lemma {:induction false} SyncedCountGrows(a: seq<Lyric>, b: seq<Lyric>, i: nat)
    requires |a| == |b| && i < |a|
    requires forall j :: 0 <= j < |a| && IsSynced(a[j]) ==> IsSynced(b[j])
    requires !IsSynced(a[i]) && IsSynced(b[i])
    ensures SyncedCount(b) > SyncedCount(a)
  {
    if i == 0 {
      SyncedCountMonotone(a[1..], b[1..]);
    } else {
      SyncedCountGrows(a[1..], b[1..], i - 1);
    }
  }

  lemma {:induction false} SyncedCountMonotone(a: seq<Lyric>, b: seq<Lyric>)
    requires |a| == |b|
    requires forall j :: 0 <= j < |a| && IsSynced(a[j]) ==> IsSynced(b[j])
    ensures SyncedCount(b) >= SyncedCount(a)
  {
    if a != [] {
      SyncedCountMonotone(a[1..], b[1..]);
    }
  }

  /** `addLyric` stamps its line at once: the synced count goes up by one
      and the unsynced count stays. */
  lemma {:induction false} AddLyricCounts(ls: seq<Lyric>, text: string, id: int, currentTime: nat)
    ensures SyncedCount(AddLyric(ls, text, id, currentTime)) == SyncedCount(ls) + 1
    ensures UnsyncedCount(AddLyric(ls, text, id, currentTime)) == UnsyncedCount(ls)
  {
    var l := Lyric(id, text, Some(currentTime));
    FilteredAppend(ls, [l], Synced);
    FilteredAppend(ls, [l], Unsynced);
    assert Filtered([l], Synced) == [l] + Filtered([], Synced);
    assert Filtered([l], Unsynced) == Filtered([], Unsynced);
  }

  // ---------------------------------------------------------------------
  // The line playing now

  /** `currentLyricIdx`: scanning the shown lines, a synced line whose time
      has been reached and is not earlier than the last one taken is taken.
      The result is -1 exactly when no shown line has a timestamp at or
      before `currentTime`; otherwise it is a line with the latest such
      timestamp, and the last of them when several share it. */
  method CurrentLyricIdx(shown: seq<Lyric>, currentTime: nat) returns (idx: int)
    ensures idx == -1 <==> forall i :: 0 <= i < |shown| ==> !Reached(shown[i], currentTime)
    ensures idx != -1 ==> 0 <= idx < |shown| && Reached(shown[idx], currentTime)
    ensures idx != -1 ==> forall i :: 0 <= i < |shown| && Reached(shown[i], currentTime) ==>
              SortKey(shown[i]) <= SortKey(shown[idx])
    ensures idx != -1 ==> forall i :: idx < i < |shown| && Reached(shown[i], currentTime) ==>
              SortKey(shown[i]) < SortKey(shown[idx])
  {
    idx := -1;
    var lastTimestamp: int := -1;
    var i := 0;
    while i < |shown|
      invariant 0 <= i <= |shown|
      invariant -1 <= idx < i
      invariant idx == -1 <==> forall j :: 0 <= j < i ==> !Reached(shown[j], currentTime)
      invariant idx == -1 ==> lastTimestamp == -1
      invariant idx != -1 ==> Reached(shown[idx], currentTime) && lastTimestamp == SortKey(shown[idx])
      invariant forall j :: 0 <= j < i && Reached(shown[j], currentTime) ==> SortKey(shown[j]) <= lastTimestamp
      invariant forall j :: idx < j < i && Reached(shown[j], currentTime) ==> SortKey(shown[j]) < lastTimestamp
    {
      var l := shown[i];
      if l.timestamp.Some? && l.timestamp.value <= currentTime && l.timestamp.value >= lastTimestamp {
        idx := i;
        lastTimestamp := l.timestamp.value;
      }
      i := i + 1;
    }
  }

  /** A synced line whose time playback has reached. */
  predicate Reached(l: Lyric, currentTime: nat) {
    IsSynced(l) && l.timestamp.value <= currentTime
  }

  // ---------------------------------------------------------------------
  // The two bottom buttons

  /** `lyrics.find(l => l.timestamp === null)`, as an index. */
  function FirstUnsynced(ls: seq<Lyric>): (r: Option<nat>)
    ensures r.None? <==> forall i :: 0 <= i < |ls| ==> IsSynced(ls[i])
    ensures r.Some? ==> r.value < |ls| && !IsSynced(ls[r.value])
    ensures r.Some? ==> forall j :: 0 <= j < r.value ==> IsSynced(ls[j])
  {
    if ls == [] then None
    else if !IsSynced(ls[0]) then Some(0)
    else match FirstUnsynced(ls[1..])
      case None => None
      case Some(k) => Some(k + 1)
  }

  /** The lyric the "remove" button acts on: the last of the synced view. */
  function LastSynced(ls: seq<Lyric>): (r: Option<Lyric>)
    ensures r.None? <==> forall i :: 0 <= i < |ls| ==> !IsSynced(ls[i])
    ensures r.Some? ==> IsSynced(r.value) && r.value in ls
  {
    FilteredIsSubsequence(ls, Synced);
    var synced := Filtered(ls, Synced);
    if |synced| > 0 then Some(synced[|synced| - 1]) else None
  }

  /** The index of the last synced line, searching from the end. */
  function LastSyncedIndex(ls: seq<Lyric>): (r: Option<nat>)
    ensures r.None? <==> forall i :: 0 <= i < |ls| ==> !IsSynced(ls[i])
    ensures r.Some? ==> r.value < |ls| && IsSynced(ls[r.value])
    ensures r.Some? ==> forall j :: r.value < j < |ls| ==> !IsSynced(ls[j])
  {
    if ls == [] then None
    else if IsSynced(ls[|ls| - 1]) then Some(|ls| - 1)
    else LastSyncedIndex(ls[..|ls| - 1])
  }

  /** The last of the synced view is the synced line nearest the end of the
      list, and there is none exactly when no line is synced. */
  lemma {:induction false} LastSyncedIsLast(ls: seq<Lyric>)
    ensures match LastSyncedIndex(ls)
      case None => LastSynced(ls) == None
      case Some(i) => LastSynced(ls) == Some(ls[i])
  {
    if ls != [] {
      var p, x := ls[..|ls| - 1], ls[|ls| - 1];
      assert ls == p + [x];
      FilteredAppend(p, [x], Synced);
      if IsSynced(x) {
        assert Filtered([x], Synced) == [x];
        assert Filtered(ls, Synced) == Filtered(p, Synced) + [x];
      } else {
        assert Filtered([x], Synced) == [];
        assert Filtered(ls, Synced) == Filtered(p, Synced);
        LastSyncedIsLast(p);
      }
    }
  }

  /** The "add timestamp" button: the first unsynced line gets the current
      playback position (through its id); with no unsynced line nothing
      happens. */
  function SyncNext(ls: seq<Lyric>, currentTime: nat): (r: seq<Lyric>)
    ensures |r| == |ls|
    ensures forall i :: 0 <= i < |r| ==> r[i] == ls[i] || r[i] == ls[i].(timestamp := Some(currentTime))
    ensures FirstUnsynced(ls).None? ==> r == ls
    ensures FirstUnsynced(ls).Some? ==> r == SetTimestamp(ls, ls[FirstUnsynced(ls).value].id, Some(currentTime))
  {
    match FirstUnsynced(ls)
    case None => ls
    case Some(i) => SetTimestamp(ls, ls[i].id, Some(currentTime))
  }

  /** The "remove" button: the last synced line loses its timestamp
      (through its id); with no synced line nothing happens. */
  function UnsyncLast(ls: seq<Lyric>): (r: seq<Lyric>)
    ensures |r| == |ls|
    ensures forall i :: 0 <= i < |r| ==> r[i] == ls[i] || r[i] == ls[i].(timestamp := None)
    ensures LastSyncedIndex(ls).None? ==> r == ls
    ensures LastSyncedIndex(ls).Some? ==> r == RemoveTimestamp(ls, ls[LastSyncedIndex(ls).value].id)
  {
    LastSyncedIsLast(ls);
    match LastSynced(ls)
    case None => ls
    case Some(l) => RemoveTimestamp(ls, l.id)
  }

  lemma SyncNextEffect(ls: seq<Lyric>, currentTime: nat)
    ensures FirstUnsynced(ls).None? ==> SyncNext(ls, currentTime) == ls
    ensures FirstUnsynced(ls).Some? ==>
              var i := FirstUnsynced(ls).value;
              SyncNext(ls, currentTime)[i].timestamp == Some(currentTime) &&
              SyncedCount(SyncNext(ls, currentTime)) > SyncedCount(ls)
    ensures FirstUnsynced(ls).Some? ==>
              var i := FirstUnsynced(ls).value;
              forall j :: 0 <= j < |ls| && ls[j].id != ls[i].id ==> SyncNext(ls, currentTime)[j] == ls[j]
  {
    if FirstUnsynced(ls).Some? {
      var i := FirstUnsynced(ls).value;
      SyncedCountGrows(ls, SyncNext(ls, currentTime), i);
    }
  }

  /** The "remove" button clears the last synced line, so the synced count
      falls; with no synced line nothing changes. */
  lemma UnsyncLastEffect(ls: seq<Lyric>)
    ensures LastSyncedIndex(ls).None? ==> UnsyncLast(ls) == ls
    ensures LastSyncedIndex(ls).Some? ==>
              var i := LastSyncedIndex(ls).value;
              !IsSynced(UnsyncLast(ls)[i]) && SyncedCount(UnsyncLast(ls)) < SyncedCount(ls)
    ensures LastSyncedIndex(ls).Some? ==>
              var i := LastSyncedIndex(ls).value;
              forall j :: 0 <= j < |ls| && ls[j].id != ls[i].id ==> UnsyncLast(ls)[j] == ls[j]
  {
    LastSyncedIsLast(ls);
    if LastSyncedIndex(ls).Some? {
      SyncedCountGrows(UnsyncLast(ls), ls, LastSyncedIndex(ls).value);
    }
  }
}
