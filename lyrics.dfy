/** Synchronised lyrics: which lyric line is "being sung" at a playback time,
    how long its highlight lasts, and the panel state that follows playback.

    Timestamps and playback times are integers (seconds); the component only
    compares and subtracts them.
 */
module Lyrics {

  datatype Option<T> = None | Some(value: T)

  /** One timed line of a lyric track. */
  datatype LyricLine = LyricLine(time: int, text: string)

  /** Highlight duration used for the final line, which has no successor. */
  const LastLineHighlight: int := 12

  /** Every line starts strictly after every earlier one. */
  ghost predicate StrictlyIncreasing(track: seq<LyricLine>)
  {
    forall i, j :: 0 <= i < j < |track| ==> track[i].time < track[j].time
  }

  /** Every line starts strictly after the line just before it. */
  ghost predicate StepsIncrease(track: seq<LyricLine>)
  {
    forall i :: 0 <= i < |track| - 1 ==> track[i].time < track[i + 1].time
  }

  lemma {:induction false} StepsIncreaseIsStrict(track: seq<LyricLine>)
    requires StepsIncrease(track)
    ensures StrictlyIncreasing(track)
    decreases |track|
  {
    if |track| > 1 {
      var front := track[..|track| - 1];
      assert StepsIncrease(front) by {
        forall i | 0 <= i < |front| - 1 ensures front[i].time < front[i + 1].time {
          assert front[i] == track[i] && front[i + 1] == track[i + 1];
        }
      }
      StepsIncreaseIsStrict(front);
      forall i, j | 0 <= i < j < |track| ensures track[i].time < track[j].time {
        if j < |track| - 1 {
          assert front[i] == track[i] && front[j] == track[j];
        } else if i < j - 1 {
          assert front[i] == track[i] && front[j - 1] == track[j - 1];
        }
      }
    }
  }

  /** The lyric sheet the panel shows: 18 lines, one every 12 seconds from
      0. */
  function SampleTrack(): (track: seq<LyricLine>)
    ensures |track| == 18
    ensures forall i :: 0 <= i < |track| ==> track[i].time == 12 * i
  {
    [ LyricLine(0, "Neon lights flicker in the digital rain"),
      LyricLine(12, "Holographic memories fade away again"),
      LyricLine(24, "Lost in the static of a cybernetic dream"),
      LyricLine(36, "Reality blurs at the edges of the stream"),
      LyricLine(48, "Quantum signals echo through the night"),
      LyricLine(60, "Binary whispers just beyond my sight"),
      LyricLine(72, "Synthetic emotions programmed to feel"),
      LyricLine(84, "Can't distinguish what's false from what's real"),
      LyricLine(96, "Neon dreams in a digital sky"),
      LyricLine(108, "Virtual worlds where we learn to fly"),
      LyricLine(120, "Coded existence in a simulated space"),
      LyricLine(132, "Transcending the limits of time and place"),
      LyricLine(144, "Cybernetic pulse, electronic beat"),
      LyricLine(156, "Rhythm of the future beneath our feet"),
      LyricLine(168, "Dancing through data in streams of light"),
      LyricLine(180, "Glowing forever in the endless night"),
      LyricLine(192, "Neon dreams..."),
      LyricLine(204, "Digital horizons...") ]
  }

  /** The sample sheet's timestamps are strictly increasing. */
  lemma SampleTrackStrictlyIncreasing()
    ensures StrictlyIncreasing(SampleTrack())
  {
    var s := SampleTrack();
    assert StepsIncrease(s);
    StepsIncreaseIsStrict(s);
  }

  /** The line that has most recently started at time t: the greatest index
      whose timestamp is at most t, or None when no line has started yet. */
  function LatestStarted(track: seq<LyricLine>, t: int): (r: Option<nat>)
    ensures r.Some? ==> r.value < |track| && track[r.value].time <= t
    ensures r.Some? ==> forall j :: r.value < j < |track| ==> track[j].time > t
    ensures r.None? ==> forall j :: 0 <= j < |track| ==> track[j].time > t
    decreases |track|
  {
    if |track| == 0 then None
    else if track[|track| - 1].time <= t then Some(|track| - 1)
    else LatestStarted(track[..|track| - 1], t)
  }

  /** Conversely, an index that has started with no later line started is the
      one LatestStarted picks; on duplicate timestamps the last one wins. */
  lemma LatestStartedIsGreatest(track: seq<LyricLine>, t: int, i: nat)
    requires i < |track| && track[i].time <= t
    requires forall j :: i < j < |track| ==> track[j].time > t
    ensures LatestStarted(track, t) == Some(i)
  {
  }

  /** No line has started exactly when every line starts after t; on a sorted,
      non-empty track that is exactly when t comes before the first line. */
  lemma NothingStartedIff(track: seq<LyricLine>, t: int)
    ensures LatestStarted(track, t).None? <==> forall j :: 0 <= j < |track| ==> track[j].time > t
    ensures StrictlyIncreasing(track) && |track| > 0 ==>
      (LatestStarted(track, t).None? <==> t < track[0].time)
  {
  }

  /** A playback time equal to a line's timestamp selects that line, not the
      one before it. */
  lemma ExactTimestampSelectsLine(track: seq<LyricLine>, k: nat)
    requires StrictlyIncreasing(track) && k < |track|
    ensures LatestStarted(track, track[k].time) == Some(k)
  {
    LatestStartedIsGreatest(track, track[k].time, k);
  }

  /** Later playback never resolves to an earlier line; read the other way,
      seeking back resolves to the line at or before the earlier one. */
  lemma LatestStartedMonotone(track: seq<LyricLine>, t1: int, t2: int)
    requires t1 <= t2
    ensures LatestStarted(track, t1).Some? ==>
      LatestStarted(track, t2).Some? && LatestStarted(track, t1).value <= LatestStarted(track, t2).value
  {
  }

  /** How long line index's highlight takes to sweep across: the gap to the
      next line's timestamp, or the fixed fallback for the last line. */
  function HighlightDuration(track: seq<LyricLine>, index: nat): (d: int)
    requires index < |track|
    ensures StrictlyIncreasing(track) ==> d > 0
    ensures index < |track| - 1 ==> track[index].time + d == track[index + 1].time
    ensures index == |track| - 1 ==> d == LastLineHighlight
  {
    if index < |track| - 1 then track[index + 1].time - track[index].time else LastLineHighlight
  }

  /** On a sorted track, a line other than the last is the active one for
      exactly the span its highlight lasts, and the next line takes over when
      the highlight ends. */
  lemma HighlightSpansActivity(track: seq<LyricLine>, index: nat, t: int)
    requires StrictlyIncreasing(track) && index < |track| - 1
    ensures LatestStarted(track, t) == Some(index) <==>
      track[index].time <= t < track[index].time + HighlightDuration(track, index)
    ensures LatestStarted(track, track[index].time + HighlightDuration(track, index)) == Some(index + 1)
  {
    var d := HighlightDuration(track, index);
    if track[index].time <= t < track[index].time + d {
      LatestStartedIsGreatest(track, t, index);
    }
    if LatestStarted(track, t) == Some(index) {
      assert track[index + 1].time > t;
    }
    ExactTimestampSelectsLine(track, index + 1);
  }

  /** The last line stays active from its timestamp on. */
  lemma LastLineStaysActive(track: seq<LyricLine>, t: int)
    requires |track| > 0 && track[|track| - 1].time <= t
    ensures LatestStarted(track, t) == Some(|track| - 1)
  {
  }

  /** The active line after an update with playback time t, when it was
      `active` before: the latest started line, or `active` unchanged when
      no line has started. */
  function NextActive(track: seq<LyricLine>, active: nat, t: int): (r: nat)
    ensures LatestStarted(track, t).Some? ==>
      r < |track| && track[r].time <= t && forall j :: r < j < |track| ==> track[j].time > t
    ensures LatestStarted(track, t).None? ==> r == active
    ensures active < |track| ==> r < |track|
  {
    match LatestStarted(track, t)
    case Some(i) => i
    case None => active
  }

  /** Whether an update with playback time t raises the "line changed"
      signal (the request to bring the new line into view): exactly when the
      active line moves. */
  predicate LineChanged(track: seq<LyricLine>, active: nat, t: int): (b: bool)
    ensures b <==> NextActive(track, active, t) != active
  {
    LatestStarted(track, t).Some? && LatestStarted(track, t).value != active
  }

  /** The signal is raised exactly when some line has started and the last
      such line is not the active one. */
  lemma LineChangedIffOtherLineStarted(track: seq<LyricLine>, active: nat, t: int)
    ensures LineChanged(track, active, t) <==>
      (exists i :: 0 <= i < |track| && track[i].time <= t && i != active &&
                   (forall j :: i < j < |track| ==> track[j].time > t))
  {
    if r :| 0 <= r < |track| && track[r].time <= t && r != active &&
            (forall j :: r < j < |track| ==> track[j].time > t) {
      LatestStartedIsGreatest(track, t, r);
    }
  }

  /** The update that runs again with the same playback time, as it does
      after it changed the active line, changes nothing and raises no
      signal. */
  lemma UpdateIdempotent(track: seq<LyricLine>, active: nat, t: int)
    ensures NextActive(track, NextActive(track, active, t), t) == NextActive(track, active, t)
    ensures !LineChanged(track, NextActive(track, active, t), t)
  {
  }

  /** Once some line has started, the result does not depend on the
      previously active line: the whole track is searched, so seeking
      backward lands on the correct earlier line. */
  lemma NextActiveIgnoresPrevious(track: seq<LyricLine>, a: nat, b: nat, t: int)
    requires LatestStarted(track, t).Some?
    ensures NextActive(track, a, t) == NextActive(track, b, t)
  {
  }

  /** The lyrics panel: the fixed lyric sheet, the active line and the log
      of "bring this line into view" requests, in the order raised. */
  class LyricsPanel {
    const lyrics: array<LyricLine>
    var activeLine: nat
    var scrollLog: seq<nat>

    /** The active line is a line of the sheet (0 on an empty sheet), every
        request names a line of the sheet, no request repeats the one before
        it, the first differs from the initial line 0, and the latest one is
        the active line. */
    ghost predicate Valid()
      reads this
    {
      (activeLine < lyrics.Length || (lyrics.Length == 0 && activeLine == 0)) &&
      (forall k :: 0 <= k < |scrollLog| ==> scrollLog[k] < lyrics.Length) &&
      (forall k :: 0 < k < |scrollLog| ==> scrollLog[k - 1] != scrollLog[k]) &&
      (|scrollLog| == 0 ==> activeLine == 0) &&
      (|scrollLog| > 0 ==> scrollLog[0] != 0 && scrollLog[|scrollLog| - 1] == activeLine)
    }

    ghost function Track(): seq<LyricLine>
      reads this, lyrics
    {
      lyrics[..]
    }

    /** A freshly mounted panel shows line 0 and has requested no scroll. */
    constructor (track: seq<LyricLine>)
      ensures Valid() && fresh(lyrics)
      ensures Track() == track
      ensures activeLine == 0 && scrollLog == []
    {
      lyrics := new LyricLine[|track|](i requires 0 <= i < |track| => track[i]);
      activeLine := 0;
      scrollLog := [];
    }

    /** The effect that runs when playback time changes: scan from the last
        line backward, stop at the first line that has started, and move the
        active line (and request a scroll to it) only if it differs. */
    method Update(currentTime: int)
      requires Valid()
      modifies this
      ensures Valid()
      ensures activeLine == NextActive(Track(), old(activeLine), currentTime)
      ensures scrollLog == old(scrollLog) +
        (if LineChanged(Track(), old(activeLine), currentTime) then [activeLine] else [])
    {
      var i := lyrics.Length - 1;
      while i >= 0
        invariant -1 <= i < lyrics.Length
        invariant forall j :: i < j < lyrics.Length ==> lyrics[j].time > currentTime
        invariant activeLine == old(activeLine) && scrollLog == old(scrollLog)
        decreases i + 1
      {
        if currentTime >= lyrics[i].time {
          LatestStartedIsGreatest(lyrics[..], currentTime, i);
          if activeLine != i {
            activeLine := i;
            scrollLog := scrollLog + [i];
          }
          break;
        }
        i := i - 1;
      }
      NothingStartedIff(lyrics[..], currentTime);
    }
  }

  /** Resolution on the sample sheet: 11 s is still line 0, 12 s is exactly
      line 1, 1000 s is the last line and -1 s comes before every line. */
  lemma SampleTrackResolution()
    ensures LatestStarted(SampleTrack(), 11) == Some(0)
    ensures LatestStarted(SampleTrack(), 12) == Some(1)
    ensures LatestStarted(SampleTrack(), 1000) == Some(17)
    ensures LatestStarted(SampleTrack(), -1) == None
  {
    var track := SampleTrack();
    SampleTrackStrictlyIncreasing();
    HighlightSpansActivity(track, 0, 11);
    ExactTimestampSelectsLine(track, 1);
    LastLineStaysActive(track, 1000);
    NothingStartedIff(track, -1);
  }

  /** Playback of the sample sheet through 11 s, 12 s, 1000 s, a seek to
      -1 s (before every line) and a seek back to 12 s: the active lines are
      0, 1, 17, 17, 1, and a scroll is requested for each move. */
  method SampleSession() returns (active: seq<nat>, scrolls: seq<nat>)
    ensures active == [0, 1, 17, 17, 1]
    ensures scrolls == [1, 17, 1]
  {
    var track := SampleTrack();
    SampleTrackResolution();
    var panel := new LyricsPanel(track);
    panel.Update(11);
    assert panel.activeLine == 0 && panel.scrollLog == [];
    active := [panel.activeLine];
    panel.Update(12);
    assert panel.activeLine == 1 && panel.scrollLog == [1];
    active := active + [panel.activeLine];
    panel.Update(1000);
    assert panel.activeLine == 17 && panel.scrollLog == [1, 17];
    active := active + [panel.activeLine];
    panel.Update(-1);
    assert panel.activeLine == 17 && panel.scrollLog == [1, 17];
    active := active + [panel.activeLine];
    panel.Update(12);
    active := active + [panel.activeLine];
    scrolls := panel.scrollLog;
  }
}
