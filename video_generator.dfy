/**
 * `SakuraVideoGenerator`: its fields as set by `__init__`, the imperative
 * `_prepare_video_segments` and `_add_text_overlays`, and `generate_video`, which
 * chains title, scenes and ending and fits the background music. Every random draw,
 * every probe of a media file and the current year are parameters.
 */
module VideoGenerator {
  import opened Wrappers
  import opened Strings
  import opened Paths
  import opened Filtering
  import opened SegmentPlanning
  import opened Composition

  /** The message of the `ValueError` raised for an empty video inventory. */
  const NoVideoFiles: string := "動画ファイルが見つかりません。素材を追加してください。"

  /**
   * The BGM choice of `__init__`: an explicit path (even an empty one) is kept; with
   * none, `random.choice(music_files)` picks entry `pick` when there is one to pick.
   */
  function ChooseBgm(bgm: Option<string>, musicFiles: seq<string>, pick: nat): (r: Option<string>)
    requires musicFiles != [] ==> pick < |musicFiles|
    ensures bgm.Some? ==> r == bgm
    ensures bgm.None? && musicFiles == [] ==> r.None?
    ensures bgm.None? && musicFiles != [] ==> r.Some? && r.value in musicFiles
  {
    if bgm.None? && musicFiles != [] then Some(musicFiles[pick]) else bgm
  }

  /** The draws `_prepare_video_segments` needs once the inventory is not empty. */
  predicate PrepareDraws(files: seq<string>, length: int, draws: seq<real>, sample: seq<nat>,
                         choices: seq<nat>, loads: seq<Load>, us: seq<real>)
  {
    && ValidDraws(draws) && EnoughDraws(Content(length), draws)
    && IsIndexPermutation(sample, |files|) && ValidChoices(choices, |files|)
    && |choices| >= |draws| && |loads| >= |draws| && |us| >= |draws| && ValidFractions(us)
  }

  /** The slot durations of a video of `length` seconds. */
  function Slots(length: int, draws: seq<real>): (ds: seq<real>)
    requires ValidDraws(draws) && EnoughDraws(Content(length), draws)
    ensures |ds| <= |draws|
  {
    Plan(Content(length), draws)
  }

  /** What `_prepare_video_segments` returns for a non-empty inventory. */
  function Prepared(files: seq<string>, length: int, draws: seq<real>, sample: seq<nat>,
                    choices: seq<nat>, loads: seq<Load>, us: seq<real>): (segs: seq<Segment>)
    requires PrepareDraws(files, length, draws, sample, choices, loads, us)
    ensures |segs| <= |draws|
  {
    var ds := Slots(length, draws);
    Present(SlotResults(Assign(files, sample, choices, |ds|), ds, loads, us))
  }

  /**
   * The segments `_prepare_video_segments` returns: no more than the slots, each one
   * from the inventory, lasting its slot's planned time and filling the canvas; when
   * no file fails to open there is one per slot and together they last exactly the
   * content time.
   */
  lemma PreparedProperties(files: seq<string>, length: int, draws: seq<real>, sample: seq<nat>,
                           choices: seq<nat>, loads: seq<Load>, us: seq<real>)
    requires PrepareDraws(files, length, draws, sample, choices, loads, us)
    ensures |Prepared(files, length, draws, sample, choices, loads, us)| <= |Slots(length, draws)|
    ensures forall i :: 0 <= i < |Prepared(files, length, draws, sample, choices, loads, us)| ==>
              var s := Prepared(files, length, draws, sample, choices, loads, us)[i];
              && s.file in files && s.duration in Slots(length, draws)
              && RangeLength(s.range) == s.duration
              && s.width == CanvasWidth && s.height == CanvasHeight
    ensures (forall j :: 0 <= j < |draws| ==> loads[j].Opened?) ==>
              && |Prepared(files, length, draws, sample, choices, loads, us)| == |Slots(length, draws)|
              && (length as real > Reserved ==>
                    SegmentTotal(Prepared(files, length, draws, sample, choices, loads, us)) == Content(length))
  {
    var ds := Slots(length, draws);
    var sel := Assign(files, sample, choices, |ds|);
    AssignProperties(files, sample, choices, |ds|);
    var rs := SlotResults(sel, ds, loads, us);
    var p := Present(rs);
    PresentInOrder(rs);
    var sl := PresentSlots(rs);
    forall i | 0 <= i < |p|
      ensures p[i].file in files && p[i].duration in ds && RangeLength(p[i].range) == p[i].duration
      ensures p[i].width == CanvasWidth && p[i].height == CanvasHeight
    {
      var j := sl[i];
      ProcessSlotShape(sel[j], ds[j], loads[j], us[j]);
      assert rs[j] == ProcessSlot(sel[j], ds[j], loads[j], us[j]);
    }
    if forall j :: 0 <= j < |draws| ==> loads[j].Opened? {
      forall j | 0 <= j < |rs| ensures rs[j].Some? && rs[j].value.duration == ds[j] {
        ProcessSlotShape(sel[j], ds[j], loads[j], us[j]);
      }
      AllPresent(rs);
      SegmentTotalMatches(p, ds);
      PlanSum(Content(length), draws);
    }
  }

  /** Segments lasting the given durations, one each, last their total. */
  lemma {:induction false} SegmentTotalMatches(segs: seq<Segment>, ds: seq<real>)
    requires |segs| == |ds|
    requires forall i :: 0 <= i < |segs| ==> segs[i].duration == ds[i]
    ensures SegmentTotal(segs) == Total(ds)
  {
    if segs != [] {
      SegmentTotalMatches(segs[1..], ds[1..]);
    }
  }

  /** The video `generate_video` writes: the music fitted onto title, scenes and ending. */
  function FinalVideo(title: string, year: int, style: string, bgmFile: Option<string>,
                      segs: seq<Segment>, picks: seq<nat>, found: bool, loaded: Option<real>): Video
    requires |segs| <= |picks| && ValidPicks(style, picks)
  {
    var scenes := Overlays(style, segs, picks);
    AddMusic(Concatenate(Timeline(TitleCard(title, year), scenes, EndingCard())), bgmFile, found, loaded)
  }

  /**
   * The written video opens with the title card and closes with the ending card, has
   * one scene per segment in between, in order, and lasts the 10 reserved seconds
   * plus the segments; background music, when set, lasts exactly as long.
   */
  lemma FinalVideoShape(title: string, year: int, style: string, bgmFile: Option<string>,
                        segs: seq<Segment>, picks: seq<nat>, found: bool, loaded: Option<real>)
    requires |segs| <= |picks| && ValidPicks(style, picks)
    ensures var v := FinalVideo(title, year, style, bgmFile, segs, picks, found, loaded);
            && |v.entries| == |segs| + 2
            && v.entries[0] == TitleEntry(TitleCard(title, year))
            && v.entries[|segs| + 1] == EndingEntry(EndingCard())
            && (forall i :: 0 <= i < |segs| ==> v.entries[i + 1].Scene? && v.entries[i + 1].overlay.base == segs[i])
            && v.duration == Reserved + SegmentTotal(segs)
            && (v.music.Some? ==> RangeLength(v.music.value.range) == v.duration)
  {
    var scenes := Overlays(style, segs, picks);
    TimelineShape(TitleCard(title, year), scenes, EndingCard());
    OverlaysKeepSegments(style, segs, picks);
    OverlayTotal(style, segs, picks);
  }

  /** What `generate_video` leaves: the output path and the video written to it. */
  datatype Output = Output(path: string, video: Video)

  class SakuraVideoGenerator {
    var outputFile: string
    var style: string
    var length: int
    var title: string
    var bgmFile: Option<string>
    var useNarration: bool
    var videoFiles: seq<string>
    var musicFiles: seq<string>
    var sfxFiles: seq<string>

    /**
     * `__init__`: the inventories come from the three resource directories; a missing
     * title is generated from the style, `year` and the draws `region` and `theme`; a
     * missing BGM is drawn from the music inventory by `bgmPick`.
     */
    constructor(outputDir: string, outputName: string, style: string, length: int,
                title: Option<string>, bgmFile: Option<string>, useNarration: bool,
                videoDir: Directory, musicDir: Directory, sfxDir: Directory,
                year: int, region: nat, theme: nat, bgmPick: nat)
      requires region < |Regions| && theme < |Themes|
      requires Inventory(musicDir, AudioPatterns) != [] ==> bgmPick < |Inventory(musicDir, AudioPatterns)|
      ensures this.outputFile == PathJoin(outputDir, outputName)
      ensures this.style == style && this.length == length && this.useNarration == useNarration
      ensures videoFiles == Inventory(videoDir, VideoPatterns)
      ensures musicFiles == Inventory(musicDir, AudioPatterns)
      ensures sfxFiles == Inventory(sfxDir, AudioPatterns)
      ensures this.title == if title.Some? then title.value else GenerateTitle(style, year, region, theme)
      ensures this.bgmFile == ChooseBgm(bgmFile, musicFiles, bgmPick)
    {
      this.outputFile := PathJoin(outputDir, outputName);
      this.style := style;
      this.length := length;
      this.useNarration := useNarration;
      var videos := ListFiles(videoDir, VideoPatterns);
      var music := ListFiles(musicDir, AudioPatterns);
      var sfx := ListFiles(sfxDir, AudioPatterns);
      this.videoFiles := videos;
      this.musicFiles := music;
      this.sfxFiles := sfx;
      this.title := if title.Some? then title.value else GenerateTitle(style, year, region, theme);
      this.bgmFile := if bgmFile.None? && music != [] then Some(music[bgmPick]) else bgmFile;
    }

    /**
     * `_prepare_video_segments`: raises for an empty inventory; otherwise plans the
     * slots, assigns a file to each and keeps the slots whose file opened.
     */
    method PrepareVideoSegments(draws: seq<real>, sample: seq<nat>, choices: seq<nat>,
                                loads: seq<Load>, us: seq<real>) returns (r: Result<seq<Segment>>)
      requires ValidDraws(draws) && EnoughDraws(Content(length), draws)
      requires IsIndexPermutation(sample, |videoFiles|) && ValidChoices(choices, |videoFiles|)
      requires videoFiles != [] ==> |choices| >= |draws|
      requires |loads| >= |draws| && |us| >= |draws| && ValidFractions(us)
      ensures r.Failure? <==> videoFiles == []
      ensures r.Failure? ==> r.error == NoVideoFiles
      ensures r.Success? ==> r.value == Prepared(videoFiles, length, draws, sample, choices, loads, us)
    {
      if videoFiles == [] {
        return Failure(NoVideoFiles);
      }
      var durations := PlanDurations(Content(length), draws);
      var selected := SelectFiles(videoFiles, sample, choices, |durations|);
      var segments := OpenSlots(selected, durations, loads, us);
      return Success(segments);
    }

    /** `_add_text_overlays`: one overlay per segment, appended in segment order. */
    method AddTextOverlays(segments: seq<Segment>, picks: seq<nat>) returns (r: seq<Overlay>)
      requires |segments| <= |picks| && ValidPicks(style, picks)
      ensures r == Overlays(style, segments, picks)
    {
      r := [];
      var i := 0;
      while i < |segments|
        invariant 0 <= i <= |segments| && |r| == i
        invariant forall q :: 0 <= q < i ==> r[q] == MakeOverlay(style, segments, picks, q)
      {
        r := r + [MakeOverlay(style, segments, picks, i)];
        i := i + 1;
      }
    }

    /**
     * `generate_video`: the year is the one both cards print; `picks` are the overlay
     * draws, `found` and `loaded` the probe of the BGM file. An empty inventory
     * propagates the `ValueError` of `_prepare_video_segments`.
     */
    method GenerateVideo(year: int, draws: seq<real>, sample: seq<nat>, choices: seq<nat>,
                         loads: seq<Load>, us: seq<real>, picks: seq<nat>,
                         found: bool, loaded: Option<real>) returns (r: Result<Output>)
      requires ValidDraws(draws) && EnoughDraws(Content(length), draws)
      requires IsIndexPermutation(sample, |videoFiles|) && ValidChoices(choices, |videoFiles|)
      requires videoFiles != [] ==> |choices| >= |draws|
      requires |loads| >= |draws| && |us| >= |draws| && ValidFractions(us)
      requires |picks| >= |draws| && ValidPicks(style, picks)
      ensures r.Failure? <==> videoFiles == []
      ensures r.Failure? ==> r.error == NoVideoFiles
      ensures r.Success? ==>
                && r.value.path == outputFile
                && r.value.video == FinalVideo(title, year, style, bgmFile,
                                               Prepared(videoFiles, length, draws, sample, choices, loads, us),
                                               picks, found, loaded)
    {
      var titleCard := TitleCard(title, year);
      var endingCard := EndingCard();
      var prepared := PrepareVideoSegments(draws, sample, choices, loads, us);
      if prepared.Failure? {
        return Failure(prepared.error);
      }
      var segments := prepared.value;
      var scenes := AddTextOverlays(segments, picks);
      var video := Concatenate(Timeline(titleCard, scenes, endingCard));
      video := AddMusic(video, bgmFile, found, loaded);
      return Success(Output(outputFile, video));
    }
  }

  /**
   * The whole run: when every file opens, a video longer than the 10 reserved seconds
   * lasts exactly the requested length, and a shorter request gives no scene at all
   * and only the two cards.
   */
  lemma VideoLength(title: string, year: int, style: string, bgmFile: Option<string>,
                    files: seq<string>, length: int, draws: seq<real>, sample: seq<nat>,
                    choices: seq<nat>, loads: seq<Load>, us: seq<real>, picks: seq<nat>,
                    found: bool, loaded: Option<real>)
    requires PrepareDraws(files, length, draws, sample, choices, loads, us)
    requires |picks| >= |draws| && ValidPicks(style, picks)
    requires forall j :: 0 <= j < |draws| ==> loads[j].Opened?
    ensures length as real > Reserved ==>
              FinalVideo(title, year, style, bgmFile, Prepared(files, length, draws, sample, choices, loads, us),
                         picks, found, loaded).duration == length as real
    ensures length as real <= Reserved ==>
              && Prepared(files, length, draws, sample, choices, loads, us) == []
              && FinalVideo(title, year, style, bgmFile, [], picks, found, loaded).duration == Reserved
  {
    PreparedProperties(files, length, draws, sample, choices, loads, us);
    var segs := Prepared(files, length, draws, sample, choices, loads, us);
    FinalVideoShape(title, year, style, bgmFile, segs, picks, found, loaded);
    PlanSum(Content(length), draws);
    if length as real <= Reserved {
      FinalVideoShape(title, year, style, bgmFile, [], picks, found, loaded);
    }
  }
}
