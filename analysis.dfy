/**
 * The analysis screen: the stored call analysis turned into the screen's
 * filler-word and grammar cards, the `mm:ss` rendering of times, and the
 * play/stop toggle of the example sentences.
 */
module Analysis {
  import opened Wrappers
  import opened Text
  import Helpers

  /** `analysis.fillers` as the backend stores it; either field may be missing. */
  datatype RawFillers = RawFillers(count: Option<int>, words: Option<seq<string>>)

  /** One filler-word example: a sentence and the words to highlight in it. */
  datatype FillerInstance = FillerInstance(text: string, highlights: seq<string>)

  datatype FillerCard = FillerCard(count: int, instances: seq<FillerInstance>)

  /** `` `You used "${word}" frequently` ``. */
  function FillerText(word: string): (t: string)
    ensures |t| == 22 + |word| && t[..10] == "You used \"" && t[10..10 + |word|] == word
  {
    var t := "You used \"" + word + "\" frequently";
    assert t[..10] == "You used \"" && t[10..10 + |word|] == word;
    t
  }

  /**
   * `transformFillers`: no card for missing fillers or a count of exactly 0;
   * otherwise the count (0 when missing) and one example per listed word,
   * highlighting that word.
   */
  function TransformFillers(fillers: Option<RawFillers>): (r: Option<FillerCard>)
    ensures r.None? <==> fillers.None? || fillers.value.count == Some(0)
    ensures r.Some? ==> r.value.count == (if fillers.value.count.Some? then fillers.value.count.value else 0)
    ensures r.Some? ==> |r.value.instances| == (if fillers.value.words.Some? then |fillers.value.words.value| else 0)
    ensures r.Some? && fillers.value.words.Some? ==> forall k :: 0 <= k < |r.value.instances| ==>
      r.value.instances[k].highlights == [fillers.value.words.value[k]]
      && r.value.instances[k].text == FillerText(fillers.value.words.value[k])
  {
    if fillers.None? || fillers.value.count == Some(0) then None
    else
      var f := fillers.value;
      var count := if f.count.Some? then f.count.value else 0;
      var instances := if f.words.Some?
        then seq(|f.words.value|, k requires 0 <= k < |f.words.value| =>
               FillerInstance(FillerText(f.words.value[k]), [f.words.value[k]]))
        else [];
      Some(FillerCard(count, instances))
  }

  /** A card with a missing count is still shown, with the count 0. */
  lemma MissingFillerCountShowsZero(words: Option<seq<string>>)
    ensures TransformFillers(Some(RawFillers(None, words))).Some?
    ensures TransformFillers(Some(RawFillers(None, words))).value.count == 0
  {
  }

  /** One entry of `analysis.grammar_corrections`. */
  datatype RawCorrection = RawCorrection(original: Option<string>, corrected: Option<string>, explanation: Option<string>)

  /** A grammar example: the sentence, the part marked wrong, its correction and the explanation. */
  datatype GrammarInstance = GrammarInstance(original: Option<string>, error: Option<string>,
                                             corrected: Option<string>, explanation: Option<string>)

  datatype GrammarCard = GrammarCard(count: nat, category: string, instances: seq<GrammarInstance>)

  /**
   * `transformGrammar`: no card for a missing or empty list; otherwise the
   * count is the number of corrections and each example marks its whole
   * original sentence as the error.
   */
  function TransformGrammar(corrections: Option<seq<RawCorrection>>): (r: Option<GrammarCard>)
    ensures r.None? <==> corrections.None? || corrections.value == []
    ensures r.Some? ==> r.value.count == |corrections.value| == |r.value.instances| && r.value.category == "문법"
    ensures r.Some? ==> forall k :: 0 <= k < |r.value.instances| ==>
      var c, g := corrections.value[k], r.value.instances[k];
      g.original == c.original && g.error == c.original && g.corrected == c.corrected && g.explanation == c.explanation
  {
    if corrections.None? || corrections.value == [] then None
    else
      var cs := corrections.value;
      Some(GrammarCard(|cs|, "문법", seq(|cs|, k requires 0 <= k < |cs| =>
        GrammarInstance(cs[k].original, cs[k].original, cs[k].corrected, cs[k].explanation))))
  }

  /** `formatTime` of this screen: "00:00" for a missing or zero time, else `mm:ss`. */
  function FormatTime(seconds: Option<int>): (r: string)
    ensures seconds.None? || seconds.value == 0 ==> r == "00:00"
  {
    if seconds.None? || seconds.value == 0 then "00:00" else Helpers.MinSec(seconds.value)
  }

  /** A positive time reads back as its whole minutes, a colon and the remaining seconds. */
  lemma FormatTimeReadsBack(seconds: int)
    requires seconds > 0
    ensures Helpers.Fields(FormatTime(Some(seconds)), seconds / 60, seconds % 60)
  {
    Helpers.MinSecReadsBack(seconds);
  }

  /** The zero rendering reads back as zero minutes and zero seconds, like every other rendering. */
  lemma FormatTimeZeroReadsBack()
    ensures Helpers.Fields(FormatTime(None), 0, 0) && Helpers.Fields(FormatTime(Some(0)), 0, 0)
  {
    var r := "00:00";
    assert r[..2] == "00" && r[3..] == "00";
    assert DigitsValue("00") == 0 by {
      assert "00"[..1] == "0";
    }
  }

  // ---------------------------------------------------------------- playback

  /** `handlePlayAudio` on `index`: the index playing is stopped, any other starts. */
  function NextPlaying(playing: Option<int>, index: int): (r: Option<int>)
    ensures r.None? <==> playing == Some(index)
    ensures r.Some? ==> r.value == index
  {
    if playing == Some(index) then None else Some(index)
  }

  /** Pressing the same sentence twice from rest leaves nothing playing. */
  lemma PressTwiceStops(playing: Option<int>, index: int)
    requires playing.None? || playing.value != index
    ensures NextPlaying(NextPlaying(playing, index), index).None?
  {
  }

  /** How the speech request for the sentence ended. */
  datatype Speech = Audio | NoAudio | SpeechFailed

  class Player {
    var playingIndex: Option<int>
    /** `audioRef.current != null`: an audio element is loaded and playing. */
    var audioLoaded: bool
    /** `audioProgress`, reset to 0 on start and end (the in-between percentages are left out). */
    var audioProgress: map<int, int>

    /** An audio element is loaded only while some sentence is marked as playing. */
    predicate Valid()
      reads this
    {
      audioLoaded ==> playingIndex.Some?
    }

    constructor ()
      ensures Valid() && playingIndex.None? && !audioLoaded && audioProgress == map[]
    {
      playingIndex := None;
      audioLoaded := false;
      audioProgress := map[];
    }

    /**
     * The play button of sentence `index`: on the sentence playing it stops
     * everything; otherwise it stops any other audio, marks `index` playing
     * with progress 0, and loads the audio when the speech service sent some
     * (a failure falls back to the browser's voice, which loads nothing).
     */
    method HandlePlayAudio(index: int, speech: Speech)
      requires Valid()
      modifies this
      ensures Valid()
      ensures playingIndex == NextPlaying(old(playingIndex), index)
      ensures old(playingIndex) == Some(index) ==> !audioLoaded && audioProgress == old(audioProgress)
      ensures old(playingIndex) != Some(index) ==>
        audioProgress == old(audioProgress)[index := 0] && (audioLoaded <==> speech == Audio)
    {
      if playingIndex == Some(index) {
        audioLoaded := false;
        playingIndex := None;
        return;
      }
      audioLoaded := false;
      playingIndex := Some(index);
      audioProgress := audioProgress[index := 0];
      if speech == Audio {
        audioLoaded := true;
      }
    }

    /** `onended` of the audio (or of the browser's voice) for `index`. */
    method PlaybackEnded(index: int)
      requires Valid()
      modifies this
      ensures Valid() && playingIndex.None? && !audioLoaded
      ensures audioProgress == old(audioProgress)[index := 0]
    {
      playingIndex := None;
      audioProgress := audioProgress[index := 0];
      audioLoaded := false;
    }
  }
}
