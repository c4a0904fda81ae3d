/**
 * The composing half of `SakuraVideoGenerator`: the generated title, the title and
 * ending cards, the per-segment overlay text, the chained timeline and the fitting of
 * the background music. Text rendering and compositing are not modelled; each layer
 * is a record of its text, position and duration.
 */
module Composition {
  import opened Wrappers
  import opened Strings
  import opened SegmentPlanning

  const Regions: seq<string> := ["北海道", "東北", "関東", "中部", "関西", "中国", "四国", "九州", "沖縄"]
  const Themes: seq<string> := ["夜桜", "桜と富士山", "桜と城", "桜と川", "桜と湖", "桜と伝統建築"]
  const Stages: seq<string> := ["つぼみ", "開花", "満開", "散り始め", "葉桜"]

  const FontSize: int := 60
  /** Vertical positions of the main and the secondary overlay text. */
  const MainTextY: int := 50
  const SubTextY: int := 50 + FontSize * 2
  /** Default duration of the title and the ending card, and their fades. */
  const CardDuration: real := 5.0
  const CardFade: real := 1.0
  /** The factor `volumex` applies to the background music. */
  const MusicGain: real := 0.5

  // ---------------------------------------------------------------------------
  // Title

  /**
   * `_generate_title`: one template per style; `region` and `theme` are the draws of
   * `random.choice(REGIONS)` and `random.choice(THEMES)`.
   */
  function GenerateTitle(style: string, year: int, region: nat, theme: nat): string
    requires region < |Regions| && theme < |Themes|
  {
    var y := Show(year);
    if style == "ranking" then y + "年 日本の美しい桜名所ベスト10"
    else if style == "regional" then Regions[region] + "の絶景桜スポット特集 " + y
    else if style == "theme" then "日本の" + Themes[theme] + "特集 " + y
    else if style == "seasonal" then "桜の一生 〜開花から散るまでの美しい姿〜 " + y
    else "日本の美しい桜特集 " + y
  }

  /**
   * Every generated title names the year, the ranking title at its start and every
   * other one after a final space; a regional title starts with the drawn region and
   * a theme title names the drawn theme.
   */
  lemma TitleNamesYear(style: string, year: int, region: nat, theme: nat)
    requires region < |Regions| && theme < |Themes|
    ensures style == "ranking" ==> StartsWith(GenerateTitle(style, year, region, theme), Show(year))
    ensures style != "ranking" ==> EndsWith(GenerateTitle(style, year, region, theme), " " + Show(year))
    ensures style == "regional" ==> StartsWith(GenerateTitle(style, year, region, theme), Regions[region])
    ensures style == "theme" ==> Contains(GenerateTitle(style, year, region, theme), Themes[theme])
  {
    var y := Show(year);
    if style == "ranking" {
      assert (y + "年 日本の美しい桜名所ベスト10")[..|y|] == y;
    } else if style == "regional" {
      var p := Regions[region] + "の絶景桜スポット特集 ";
      EndsWithSpaced(p, y);
      StartsWithJoined(Regions[region], "の絶景桜スポット特集 ", y);
    } else if style == "theme" {
      var p := "日本の" + Themes[theme] + "特集 ";
      EndsWithSpaced(p, y);
      var t := p + y;
      assert t[3..3 + |Themes[theme]|] == Themes[theme];
      ContainsAt(t, Themes[theme], 3);
    } else if style == "seasonal" {
      EndsWithSpaced("桜の一生 〜開花から散るまでの美しい姿〜 ", y);
    } else {
      EndsWithSpaced("日本の美しい桜特集 ", y);
    }
  }

  lemma StartsWithJoined(a: string, b: string, c: string)
    ensures StartsWith(a + b + c, a)
  {
    assert (a + b + c)[..|a|] == a;
  }

  /** A text ending in a space, followed by `y`, ends with the space and `y`. */
  lemma EndsWithSpaced(p: string, y: string)
    requires |p| > 0 && p[|p| - 1] == ' '
    ensures EndsWith(p + y, " " + y)
  {
    assert (p + y)[|p| - 1..] == " " + y;
  }

  // ---------------------------------------------------------------------------
  // Cards and overlays

  /** A two-line card over a black background. */
  datatype Card = Card(main: string, sub: string, duration: real, fadeIn: real, fadeOut: real)

  /** `_create_title_clip` with its default duration. */
  function TitleCard(title: string, year: int): Card {
    Card(title, "Beautiful Cherry Blossoms in Japan " + Show(year), CardDuration, CardFade, CardFade)
  }

  /** `_create_ending_clip` with its default duration. */
  function EndingCard(): Card {
    Card("ご視聴ありがとうございました", "チャンネル登録よろしくお願いします", CardDuration, CardFade, CardFade)
  }

  /** A segment with its main text and secondary text stacked on it, for its whole length. */
  datatype Overlay = Overlay(base: Segment, text: string, subtext: string,
                             textY: int, subtextY: int, duration: real)

  /** The draw of `random.choice` a regional or theme overlay needs is an index into its list. */
  predicate ValidPicks(style: string, picks: seq<nat>) {
    (style == "regional" ==> forall j :: 0 <= j < |picks| ==> picks[j] < |Regions|)
    && (style == "theme" ==> forall j :: 0 <= j < |picks| ==> picks[j] < |Themes|)
  }

  function Clamp(i: nat, hi: nat): nat { if i <= hi then i else hi }

  /** The text pair for the i-th of n segments. */
  function OverlayText(style: string, i: nat, n: nat, pick: nat): (string, string)
    requires style == "regional" ==> pick < |Regions|
    requires style == "theme" ==> pick < |Themes|
  {
    if style == "ranking" then ("第" + Show(n - i) + "位", "Rank " + Show(n - i))
    else if style == "regional" then (Regions[pick], "Region: " + Regions[pick])
    else if style == "theme" then (Themes[pick], "Theme: " + Themes[pick])
    else if style == "seasonal" then
      var stage := Stages[Clamp(i, |Stages| - 1)];
      (stage, "Stage: " + stage)
    else ("桜の風景 " + Show(i + 1), "Cherry Blossom Scene " + Show(i + 1))
  }

  function MakeOverlay(style: string, segs: seq<Segment>, picks: seq<nat>, i: nat): Overlay
    requires i < |segs| <= |picks| && ValidPicks(style, picks)
  {
    var texts := OverlayText(style, i, |segs|, picks[i]);
    Overlay(segs[i], texts.0, texts.1, MainTextY, SubTextY, segs[i].duration)
  }

  /** What `_add_text_overlays` returns. */
  function Overlays(style: string, segs: seq<Segment>, picks: seq<nat>): seq<Overlay>
    requires |segs| <= |picks| && ValidPicks(style, picks)
  {
    seq(|segs|, i requires 0 <= i < |segs| => MakeOverlay(style, segs, picks, i))
  }

  /** One overlay per segment, in the same order, over that segment for its whole length. */
  lemma OverlaysKeepSegments(style: string, segs: seq<Segment>, picks: seq<nat>)
    requires |segs| <= |picks| && ValidPicks(style, picks)
    ensures |Overlays(style, segs, picks)| == |segs|
    ensures forall i :: 0 <= i < |segs| ==>
              var o := Overlays(style, segs, picks)[i];
              o.base == segs[i] && o.duration == segs[i].duration
              && o.textY == MainTextY && o.subtextY == SubTextY
  {
  }

  /**
   * Ranking labels count down: the i-th of n segments is ranked n - i, so the labels
   * run from n to 1 and no two segments share one.
   */
  lemma RankingCountsDown(segs: seq<Segment>, picks: seq<nat>)
    requires |segs| <= |picks|
    ensures forall i :: 0 <= i < |segs| ==>
              var o := Overlays("ranking", segs, picks)[i];
              1 <= |segs| - i <= |segs|
              && o.text == "第" + Show(|segs| - i) + "位" && o.subtext == "Rank " + Show(|segs| - i)
    ensures forall i, j :: 0 <= i < j < |segs| ==>
              Overlays("ranking", segs, picks)[i].subtext != Overlays("ranking", segs, picks)[j].subtext
  {
    var os := Overlays("ranking", segs, picks);
    forall i, j | 0 <= i < j < |segs| ensures os[i].subtext != os[j].subtext {
      assert os[i].subtext == "Rank " + Show(|segs| - i) && os[j].subtext == "Rank " + Show(|segs| - j);
      ShowNatDistinct(|segs| - i, |segs| - j);
      PrefixedDistinct("Rank ", Show(|segs| - i), Show(|segs| - j));
    }
  }

  lemma PrefixedDistinct(p: string, a: string, b: string)
    requires a != b
    ensures p + a != p + b
  {
    assert (p + a)[|p|..] == a && (p + b)[|p|..] == b;
  }

  /**
   * Seasonal overlays follow the five stages by position and stay on the last stage
   * from the fifth segment on; the secondary text is "Stage: " and the stage.
   */
  lemma SeasonalStages(segs: seq<Segment>, picks: seq<nat>)
    requires |segs| <= |picks|
    ensures forall i :: 0 <= i < |segs| ==>
              var o := Overlays("seasonal", segs, picks)[i];
              o.text == Stages[if i < 4 then i else 4] && o.subtext == "Stage: " + o.text
    ensures forall i :: 4 <= i < |segs| ==> Overlays("seasonal", segs, picks)[i].text == "葉桜"
  {
  }

  /**
   * Regional and theme overlays show the drawn name with "Region: " or "Theme: " in
   * front of it; the default style numbers the segments from 1.
   */
  lemma PickedAndNumberedTexts(style: string, segs: seq<Segment>, picks: seq<nat>)
    requires |segs| <= |picks| && ValidPicks(style, picks)
    ensures style == "regional" ==> forall i :: 0 <= i < |segs| ==>
              Overlays(style, segs, picks)[i].text in Regions
              && Overlays(style, segs, picks)[i].subtext == "Region: " + Overlays(style, segs, picks)[i].text
    ensures style == "theme" ==> forall i :: 0 <= i < |segs| ==>
              Overlays(style, segs, picks)[i].text in Themes
              && Overlays(style, segs, picks)[i].subtext == "Theme: " + Overlays(style, segs, picks)[i].text
    ensures style !in {"ranking", "regional", "theme", "seasonal"} ==> forall i :: 0 <= i < |segs| ==>
              Overlays(style, segs, picks)[i].text == "桜の風景 " + Show(i + 1)
              && Overlays(style, segs, picks)[i].subtext == "Cherry Blossom Scene " + Show(i + 1)
  {
  }

  // ---------------------------------------------------------------------------
  // Timeline

  datatype Entry = TitleEntry(card: Card) | Scene(overlay: Overlay) | EndingEntry(card: Card)

  function EntryDuration(e: Entry): real {
    match e
    case TitleEntry(c) => c.duration
    case Scene(o) => o.duration
    case EndingEntry(c) => c.duration
  }

  /** `concatenate_videoclips` chains its clips end to end: the lengths add up. */
  function ChainDuration(es: seq<Entry>): real {
    if es == [] then 0.0 else EntryDuration(es[0]) + ChainDuration(es[1..])
  }

  /** The clip list handed to `concatenate_videoclips`: title, scenes, ending. */
  function Timeline(title: Card, scenes: seq<Overlay>, ending: Card): seq<Entry> {
    [TitleEntry(title)] + seq(|scenes|, i requires 0 <= i < |scenes| => Scene(scenes[i])) + [EndingEntry(ending)]
  }

  function SceneTotal(os: seq<Overlay>): real {
    if os == [] then 0.0 else os[0].duration + SceneTotal(os[1..])
  }

  function SegmentTotal(segs: seq<Segment>): real {
    if segs == [] then 0.0 else segs[0].duration + SegmentTotal(segs[1..])
  }

  lemma {:induction false} ChainAppend(a: seq<Entry>, b: seq<Entry>)
    ensures ChainDuration(a + b) == ChainDuration(a) + ChainDuration(b)
  {
    if a != [] {
      assert (a + b)[1..] == a[1..] + b;
      ChainAppend(a[1..], b);
    } else {
      assert a + b == b;
    }
  }

  lemma {:induction false} ScenesDuration(scenes: seq<Overlay>)
    ensures ChainDuration(seq(|scenes|, i requires 0 <= i < |scenes| => Scene(scenes[i]))) == SceneTotal(scenes)
  {
    var es := seq(|scenes|, i requires 0 <= i < |scenes| => Scene(scenes[i]));
    if scenes != [] {
      ScenesDuration(scenes[1..]);
      assert es[1..] == seq(|scenes[1..]|, i requires 0 <= i < |scenes[1..]| => Scene(scenes[1..][i]));
    }
  }

  /**
   * The timeline starts with the title, ends with the ending and has the scenes in
   * between in order; it lasts the two cards plus the scenes, with no overlap.
   */
  lemma TimelineShape(title: Card, scenes: seq<Overlay>, ending: Card)
    ensures |Timeline(title, scenes, ending)| == |scenes| + 2
    ensures Timeline(title, scenes, ending)[0] == TitleEntry(title)
    ensures Timeline(title, scenes, ending)[|scenes| + 1] == EndingEntry(ending)
    ensures forall i :: 0 <= i < |scenes| ==> Timeline(title, scenes, ending)[i + 1] == Scene(scenes[i])
    ensures ChainDuration(Timeline(title, scenes, ending)) == title.duration + SceneTotal(scenes) + ending.duration
  {
    var mid := seq(|scenes|, i requires 0 <= i < |scenes| => Scene(scenes[i]));
    ChainAppend([TitleEntry(title)] + mid, [EndingEntry(ending)]);
    ChainAppend([TitleEntry(title)], mid);
    ScenesDuration(scenes);
  }

  /** Overlays keep their segment's length, so the scenes last as long as the segments. */
  lemma OverlayTotal(style: string, segs: seq<Segment>, picks: seq<nat>)
    requires |segs| <= |picks| && ValidPicks(style, picks)
    ensures SceneTotal(Overlays(style, segs, picks)) == SegmentTotal(segs)
  {
    OverlayTotalFrom(style, segs, picks, 0);
    assert segs[0..] == segs;
    assert Overlays(style, segs, picks)[0..] == Overlays(style, segs, picks);
  }

  lemma {:induction false} OverlayTotalFrom(style: string, segs: seq<Segment>, picks: seq<nat>, k: nat)
    requires |segs| <= |picks| && ValidPicks(style, picks) && k <= |segs|
    ensures SceneTotal(Overlays(style, segs, picks)[k..]) == SegmentTotal(segs[k..])
    decreases |segs| - k
  {
    var os := Overlays(style, segs, picks);
    if k < |segs| {
      OverlayTotalFrom(style, segs, picks, k + 1);
      assert os[k..][1..] == os[k + 1..];
      assert segs[k..][1..] == segs[k + 1..];
    }
  }

  // ---------------------------------------------------------------------------
  // Background music

  /** A background track fitted to the video: its source, the range used and the gain. */
  datatype Music = Music(source: string, sourceDuration: real, range: TimeRange, gain: real)

  /** A composed video: its clip list, its length and the background music set on it. */
  datatype Video = Video(entries: seq<Entry>, duration: real, music: Option<Music>)

  /** `concatenate_videoclips` on a clip list. */
  function Concatenate(es: seq<Entry>): Video {
    Video(es, ChainDuration(es), None)
  }

  /** Whether `self.bgm_file` is set to a non-empty path (Python truthiness). */
  predicate HasPath(p: Option<string>) {
    p.Some? && p.value != ""
  }

  /**
   * `_add_audio`: `found` is `os.path.exists(bgm_file)`; `loaded` is the length of the
   * opened track, or None when opening or fitting it raised.
   */
  function AddMusic(video: Video, bgmFile: Option<string>, found: bool, loaded: Option<real>): (v: Video)
    ensures v.entries == video.entries && v.duration == video.duration
    ensures !(HasPath(bgmFile) && found && loaded.Some?) ==> v == video
    ensures HasPath(bgmFile) && found && loaded.Some? ==>
              && v.music.Some?
              && v.music.value.source == bgmFile.value
              && v.music.value.sourceDuration == loaded.value
              && RangeLength(v.music.value.range) == video.duration
              && v.music.value.gain == MusicGain
              && (v.music.value.range.Looped? <==> loaded.value < video.duration)
              && (v.music.value.range.Sub? ==>
                    v.music.value.range.start == 0.0 && v.music.value.range.end <= loaded.value)
  {
    if HasPath(bgmFile) && found && loaded.Some? then
      var d := loaded.value;
      var range := if d < video.duration then Looped(video.duration) else Sub(0.0, video.duration);
      video.(music := Some(Music(bgmFile.value, d, range, MusicGain)))
    else video
  }
}
