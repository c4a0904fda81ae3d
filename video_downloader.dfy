/**
 * `SakuraVideoDownloader`: the yt-dlp options it builds, the search target of
 * `search_and_download`, the records it keeps for every returned entry, the
 * accumulation of `downloaded_videos` across calls, the duration summary, and the
 * preset choice of `main`. What yt-dlp returns and what the output directory lists
 * are parameters.
 */
module VideoDownload {
  import opened Wrappers
  import opened Strings
  import opened Paths
  import opened Filtering

  // ---------------------------------------------------------------------------
  // Options

  /** The yt-dlp options that depend on the downloader's settings. */
  datatype YdlOptions = YdlOptions(format: string, outtmpl: string, writeSubtitles: bool,
                                   subtitleLangs: Option<seq<string>>, maxDownloads: int,
                                   preferredFormat: string, playlistEnd: Option<int>)

  function Options(outputDir: string, maxDownloads: int, videoFormat: string, resolution: string,
                   language: string, subtitles: bool): (o: YdlOptions)
    ensures o.format == "bestvideo[height<=" + resolution + "]+bestaudio/best[height<=" + resolution + "]"
    ensures o.outtmpl == PathJoin(outputDir, "%(title)s.%(ext)s")
    ensures o.writeSubtitles == subtitles
    ensures o.subtitleLangs == if subtitles then Some([language]) else None
    ensures o.maxDownloads == maxDownloads && o.preferredFormat == videoFormat
    ensures o.playlistEnd.None?
  {
    YdlOptions("bestvideo[height<=" + resolution + "]+bestaudio/best[height<=" + resolution + "]",
               PathJoin(outputDir, "%(title)s.%(ext)s"), subtitles,
               if subtitles then Some([language]) else None, maxDownloads, videoFormat, None)
  }

  // ---------------------------------------------------------------------------
  // Search target

  /** The search prefix yt-dlp understands for each supported site. */
  function SitePrefix(site: string): Option<string> {
    if site == "youtube" then Some("ytsearch")
    else if site == "nicovideo" then Some("nicosearch")
    else if site == "vimeo" then Some("vimsearch")
    else None
  }

  /** `search_url[site]`, or None for a site the dict does not hold. */
  function SearchTarget(site: string, maxDownloads: int, query: string): (r: Option<string>)
    ensures r.None? <==> site !in {"youtube", "nicovideo", "vimeo"}
  {
    match SitePrefix(site)
    case None => None
    case Some(p) => Some(p + Show(maxDownloads) + ":" + query)
  }

  /**
   * A search target reads back: before the first ':' stand the site's prefix and the
   * number of results, after it the whole query.
   */
  lemma SearchTargetParts(site: string, maxDownloads: int, query: string)
    requires SearchTarget(site, maxDownloads, query).Some?
    ensures var t := SearchTarget(site, maxDownloads, query).value;
            var i := IndexOf(t, ':');
            && t[i + 1..] == query
            && StartsWith(t, SitePrefix(site).value)
            && ParseInt(t[|SitePrefix(site).value|..i]) == Some(maxDownloads)
  {
    var p := SitePrefix(site).value;
    var n := Show(maxDownloads);
    var t := p + n + ":" + query;
    PrefixNoColon(p, maxDownloads);
    IndexOfFirst(p + n, query, ':');
    assert t[|p + n| + 1..] == query;
    assert t[..|p + n|] == p + n;
    assert t[..|p|] == p;
    assert t[|p|..|p + n|] == (p + n)[|p|..] == n;
    ParseShow(maxDownloads);
  }

  /** Neither a site prefix nor a printed number holds a colon. */
  lemma PrefixNoColon(p: string, maxDownloads: int)
    requires p in {"ytsearch", "nicosearch", "vimsearch"}
    ensures ':' !in p + Show(maxDownloads)
  {
    var n := Show(maxDownloads);
    forall k | 0 <= k < |p + n| ensures (p + n)[k] != ':' {
      if k >= |p| {
        assert (p + n)[k] == n[k - |p|];
        ShowHasNoColon(maxDownloads, k - |p|);
      }
    }
  }

  /** In `a`, `c`, `b` with `c` not in `a`, the first `c` is the one after `a`. */
  lemma IndexOfFirst(a: string, b: string, c: char)
    requires c !in a
    ensures IndexOf(a + [c] + b, c) == |a|
  {
    var t := a + [c] + b;
    assert t[|a|] == c;
    assert t[..|a|] == a;
  }

  lemma ShowHasNoColon(n: int, k: nat)
    requires k < |Show(n)|
    ensures Show(n)[k] != ':'
  {
    if n < 0 {
      if k > 0 { assert Show(n)[k] == ShowNat(-n)[k - 1]; }
    }
  }

  /** The file the search results are written to: spaces of the query become '_'. */
  function SearchMetadataName(site: string, query: string): (r: string)
    ensures ' ' !in query ==> r == "search_results_" + site + "_" + query + ".json"
  {
    "search_results_" + site + "_" + ReplaceChar(query, ' ', '_') + ".json"
  }

  /** The metadata file name holds no space beyond those of the site name. */
  lemma SearchMetadataNoSpace(site: string, query: string)
    requires ' ' !in site
    ensures ' ' !in SearchMetadataName(site, query)
  {
    var q := ReplaceChar(query, ' ', '_');
    assert ' ' !in q by {
      forall k | 0 <= k < |q| ensures q[k] != ' ' { }
    }
    var r := SearchMetadataName(site, query);
    forall k | 0 <= k < |r| ensures r[k] != ' ' {
      var a := "search_results_" + site + "_";
      if k < |"search_results_"| {
      } else if k < |"search_results_" + site| {
        assert r[k] == site[k - |"search_results_"|];
      } else if k < |a| {
      } else if k < |a + q| {
        assert r[k] == q[k - |a|];
      }
    }
  }

  // ---------------------------------------------------------------------------
  // Records

  /** A key of a dict yt-dlp returns: absent, present with the value None, or present with a value. */
  datatype Field<T> = Missing | Null | Value(value: T)

  /** One entry yt-dlp returned (yt-dlp gives `'duration': None` for a live stream, say). */
  datatype Entry = Entry(id: Field<string>, title: Field<string>, webpageUrl: Field<string>,
                         uploadDate: Field<string>, duration: Field<int>, viewCount: Field<int>,
                         likeCount: Field<int>, uploader: Field<string>)

  /** The record kept for one downloaded video; None is a None value carried over from the entry. */
  datatype VideoInfo = VideoInfo(id: Option<string>, title: Option<string>, url: Option<string>,
                                 uploadDate: Option<string>, duration: Option<int>, viewCount: Option<int>,
                                 likeCount: Option<int>, uploader: Option<string>)

  /** `entry.get(key, default)`. */
  function FieldGet<T>(f: Field<T>, default: T): Option<T> {
    match f
    case Missing => Some(default)
    case Null => None
    case Value(v) => Some(v)
  }

  /** What `get` promises: the default for an absent key, None for a None value, the value otherwise. */
  predicate GetsWith<T(==)>(f: Field<T>, default: T, r: Option<T>) {
    && (f.Missing? ==> r == Some(default))
    && (f.Null? ==> r.None?)
    && (f.Value? ==> r == Some(f.value))
  }

  /** `entry.get(key, default)` for every kept field. */
  function Record(e: Entry): VideoInfo {
    VideoInfo(FieldGet(e.id, "unknown"), FieldGet(e.title, "unknown"), FieldGet(e.webpageUrl, "unknown"),
              FieldGet(e.uploadDate, "unknown"), FieldGet(e.duration, 0), FieldGet(e.viewCount, 0),
              FieldGet(e.likeCount, 0), FieldGet(e.uploader, "unknown"))
  }

  /**
   * Every field of a record is the entry's value when it holds one, None when it holds
   * None, and "unknown" or 0 when it lacks the key.
   */
  lemma RecordDefaults(e: Entry)
    ensures GetsWith(e.id, "unknown", Record(e).id)
    ensures GetsWith(e.title, "unknown", Record(e).title)
    ensures GetsWith(e.webpageUrl, "unknown", Record(e).url)
    ensures GetsWith(e.uploadDate, "unknown", Record(e).uploadDate)
    ensures GetsWith(e.duration, 0, Record(e).duration)
    ensures GetsWith(e.viewCount, 0, Record(e).viewCount)
    ensures GetsWith(e.likeCount, 0, Record(e).likeCount)
    ensures GetsWith(e.uploader, "unknown", Record(e).uploader)
  {
  }

  /** The records of the truthy entries (None stands for a None or empty entry), in order. */
  function Records(entries: seq<Option<Entry>>): (r: seq<VideoInfo>)
    ensures |r| == |Present(entries)|
    ensures forall i :: 0 <= i < |r| ==> r[i] == Record(Present(entries)[i])
  {
    var live := Present(entries);
    seq(|live|, i requires 0 <= i < |live| => Record(live[i]))
  }

  /** One more entry adds its record when it is present and nothing otherwise. */
  lemma RecordsStep(entries: seq<Option<Entry>>, i: nat)
    requires i < |entries|
    ensures Records(entries[..i + 1])
            == Records(entries[..i]) + (if entries[i].Some? then [Record(entries[i].value)] else [])
  {
    var init := entries[..i];
    assert entries[..i + 1][..i] == init;
    assert entries[..i + 1][i] == entries[i];
    var a := Records(entries[..i + 1]);
    var b := Records(init) + (if entries[i].Some? then [Record(entries[i].value)] else []);
    assert Present(entries[..i + 1]) == Present(init) + (if entries[i].Some? then [entries[i].value] else []);
    assert |a| == |b|;
    forall k | 0 <= k < |a| ensures a[k] == b[k] {
      if k < |Records(init)| {
        assert b[k] == Records(init)[k];
      }
    }
  }

  /** Skipped entries leave no record; the records follow the entries' order. */
  lemma RecordsSkipNone(entries: seq<Option<Entry>>)
    ensures |Records(entries)| <= |entries|
    ensures forall j :: 0 <= j < |entries| && entries[j].Some? ==> Record(entries[j].value) in Records(entries)
    ensures (forall j :: 0 <= j < |entries| ==> entries[j].Some?) ==>
              |Records(entries)| == |entries|
              && forall j :: 0 <= j < |entries| ==> Records(entries)[j] == Record(entries[j].value)
  {
    PresentInOrder(entries);
    var sl := PresentSlots(entries);
    forall j | 0 <= j < |entries| && entries[j].Some? ensures Record(entries[j].value) in Records(entries) {
      var i :| 0 <= i < |sl| && sl[i] == j;
      assert Records(entries)[i] == Record(entries[j].value);
    }
    if forall j :: 0 <= j < |entries| ==> entries[j].Some? {
      AllPresent(entries);
    }
  }

  /** The records hold a None duration exactly when some present entry has `'duration': None`. */
  lemma RecordsNullDuration(entries: seq<Option<Entry>>)
    ensures NullDuration(Records(entries)) <==>
              exists j :: 0 <= j < |entries| && entries[j].Some? && entries[j].value.duration.Null?
  {
    var rs := Records(entries);
    if NullDuration(rs) {
      var i :| 0 <= i < |rs| && rs[i].duration.None?;
      PresentSlotsLength(entries);
      PresentSlotsAt(entries, i);
      var j := PresentSlots(entries)[i];
      assert entries[j] == Some(Present(entries)[i]);
      assert entries[j].value.duration.Null?;
    }
    if exists j :: 0 <= j < |entries| && entries[j].Some? && entries[j].value.duration.Null? {
      var j :| 0 <= j < |entries| && entries[j].Some? && entries[j].value.duration.Null?;
      RecordsSkipNone(entries);
      var i :| 0 <= i < |rs| && rs[i] == Record(entries[j].value);
      assert rs[i].duration.None?;
    }
  }

  /** What `extract_info` gives: an exception, nothing, or a result with its `entries` and `id` keys. */
  datatype Fetch = Error | NoResult | Fetched(entries: Field<seq<Option<Entry>>>, id: Field<string>)

  /**
   * The entries of a result that has them (`info and 'entries' in info`). An `entries`
   * key holding None makes the `for` loop raise before anything is recorded, and the
   * handler returns `[]` as for a result without entries.
   */
  predicate HasEntries(f: Fetch) {
    f.Fetched? && f.entries.Value?
  }

  /** `info.get('id', 'unknown_playlist')` as the f-string prints it. */
  function PlaylistId(id: Field<string>): string {
    match id
    case Missing => "unknown_playlist"
    case Null => "None"
    case Value(v) => v
  }

  // ---------------------------------------------------------------------------
  // Summary

  /** `divmod(total, 3600)` then `divmod(remainder, 60)`. */
  function Hms(total: int): (r: (int, int, int))
    ensures r.0 * 3600 + r.1 * 60 + r.2 == total
    ensures 0 <= r.1 < 60 && 0 <= r.2 < 60
  {
    var hours := total / 3600;
    var remainder := total % 3600;
    (hours, remainder / 60, remainder % 60)
  }

  /** The summary `get_download_summary` returns, without its time stamp. */
  datatype Summary = Summary(totalVideos: nat, hours: int, minutes: int, seconds: int,
                             totalDuration: string, outputDirectory: string)

  function DurationText(h: int, m: int, s: int): string {
    Show(h) + "時間" + Show(m) + "分" + Show(s) + "秒"
  }

  function CountSuffix(names: seq<string>, suffix: string): (n: nat)
    ensures n <= |names|
  {
    if names == [] then 0
    else CountSuffix(names[..|names| - 1], suffix) + (if EndsWith(names[|names| - 1], suffix) then 1 else 0)
  }

  /** `total_duration += video.get('duration', 0)` over the records; None where `+=` meets None and raises TypeError. */
  function DurationSum(videos: seq<VideoInfo>): Option<int> {
    if videos == [] then Some(0)
    else
      match DurationSum(videos[..|videos| - 1])
      case None => None
      case Some(t) =>
        var d := videos[|videos| - 1].duration;
        if d.None? then None else Some(t + d.value)
  }

  predicate NullDuration(videos: seq<VideoInfo>) {
    exists i :: 0 <= i < |videos| && videos[i].duration.None?
  }

  /** Summing the records fails exactly when one of them has a None duration. */
  lemma {:induction false} DurationSumNull(videos: seq<VideoInfo>)
    ensures DurationSum(videos).None? <==> NullDuration(videos)
  {
    if videos != [] {
      var init := videos[..|videos| - 1];
      DurationSumNull(init);
      if NullDuration(init) {
        var i :| 0 <= i < |init| && init[i].duration.None?;
        assert videos[i] == init[i];
      }
      if NullDuration(videos) && videos[|videos| - 1].duration.Some? {
        var i :| 0 <= i < |videos| && videos[i].duration.None?;
        assert init[i] == videos[i];
      }
    }
  }

  /** A listed `.info.json` file that loads and has `'duration': None`. */
  predicate NullInfo(f: string, readable: map<string, Field<int>>) {
    EndsWith(f, ".info.json") && f in readable && readable[f].Null?
  }

  /**
   * What the `.info.json` files of the listing add: `readable` maps each file that
   * loads to its `duration` key; a file that has vanished or is not valid JSON (the
   * two errors the handler catches) adds nothing, a missing key adds 0, and a None
   * value makes `+=` raise TypeError (None here).
   */
  function InfoSum(names: seq<string>, readable: map<string, Field<int>>): Option<int> {
    if names == [] then Some(0)
    else
      match InfoSum(names[..|names| - 1], readable)
      case None => None
      case Some(t) =>
        var f := names[|names| - 1];
        if EndsWith(f, ".info.json") && f in readable then
          match readable[f]
          case Missing => Some(t)
          case Null => None
          case Value(v) => Some(t + v)
        else Some(t)
  }

  /** Summing the info files fails exactly when one of them has a None duration. */
  lemma {:induction false} InfoSumNull(names: seq<string>, readable: map<string, Field<int>>)
    ensures InfoSum(names, readable).None? <==> exists j :: 0 <= j < |names| && NullInfo(names[j], readable)
  {
    if names != [] {
      var init := names[..|names| - 1];
      InfoSumNull(init, readable);
      if exists j :: 0 <= j < |init| && NullInfo(init[j], readable) {
        var j :| 0 <= j < |init| && NullInfo(init[j], readable);
        assert names[j] == init[j];
      }
      if (exists j :: 0 <= j < |names| && NullInfo(names[j], readable)) && !NullInfo(names[|names| - 1], readable) {
        var j :| 0 <= j < |names| && NullInfo(names[j], readable);
        assert init[j] == names[j];
      }
    }
  }

  /**
   * The total the summary reports: the records' total, or the info files' total when
   * the records add up to 0 (as they do when there are none); None when the sum raises.
   */
  function SummaryTotal(videos: seq<VideoInfo>, names: seq<string>, readable: map<string, Field<int>>): (t: Option<int>)
    ensures t.None? <==> NullDuration(videos)
                         || (DurationSum(videos) == Some(0) && exists j :: 0 <= j < |names| && NullInfo(names[j], readable))
    ensures DurationSum(videos).Some? && DurationSum(videos).value != 0 ==> t == DurationSum(videos)
    ensures DurationSum(videos) == Some(0) ==> t == InfoSum(names, readable)
  {
    DurationSumNull(videos);
    InfoSumNull(names, readable);
    match DurationSum(videos)
    case None => None
    case Some(total) =>
      if total == 0 || videos == [] then
        match InfoSum(names, readable)
        case None => None
        case Some(extra) => Some(total + extra)
      else Some(total)
  }

  // ---------------------------------------------------------------------------
  // The downloader

  class SakuraVideoDownloader {
    var outputDir: string
    var metadataDir: string
    var maxDownloads: int
    var videoFormat: string
    var resolution: string
    var language: string
    var subtitles: bool
    var downloadedVideos: seq<VideoInfo>
    var ydlOpts: YdlOptions

    /**
     * `__init__`; `cwd` and `stamp` (the formatted current time) stand for the
     * working directory and the clock.
     */
    constructor(outputDir: Option<string>, cwd: string, stamp: string, maxDownloads: int,
                videoFormat: string, resolution: string, language: string, subtitles: bool)
      ensures this.outputDir == if outputDir.None? then PathJoin(PathJoin(cwd, "downloads"), "sakura_" + stamp)
                                else outputDir.value
      ensures metadataDir == PathJoin(this.outputDir, "metadata")
      ensures this.maxDownloads == maxDownloads && this.videoFormat == videoFormat
      ensures this.resolution == resolution && this.language == language && this.subtitles == subtitles
      ensures downloadedVideos == []
      ensures ydlOpts == Options(this.outputDir, maxDownloads, videoFormat, resolution, language, subtitles)
    {
      var dir := if outputDir.None? then PathJoin(PathJoin(cwd, "downloads"), "sakura_" + stamp) else outputDir.value;
      this.outputDir := dir;
      this.metadataDir := PathJoin(dir, "metadata");
      this.maxDownloads := maxDownloads;
      this.videoFormat := videoFormat;
      this.resolution := resolution;
      this.language := language;
      this.subtitles := subtitles;
      this.downloadedVideos := [];
      this.ydlOpts := Options(dir, maxDownloads, videoFormat, resolution, language, subtitles);
    }

    /** The loop of `search_and_download` over the result's entries: one record per present entry. */
    method AddRecords(entries: seq<Option<Entry>>)
      modifies this`downloadedVideos
      ensures downloadedVideos == old(downloadedVideos) + Records(entries)
    {
      var i := 0;
      while i < |entries|
        invariant 0 <= i <= |entries|
        invariant downloadedVideos == old(downloadedVideos) + Records(entries[..i])
      {
        RecordsStep(entries, i);
        if entries[i].Some? {
          downloadedVideos := downloadedVideos + [Record(entries[i].value)];
        }
        i := i + 1;
      }
      assert entries[..i] == entries;
    }

    /**
     * `search_and_download`: `fetch` is what `extract_info` gave for the target. Every
     * truthy entry is appended to `downloaded_videos`, and the whole cumulative list is
     * returned together with the metadata file written.
     */
    method SearchAndDownload(query: string, site: string, fetch: Fetch)
      returns (r: seq<VideoInfo>, metadataFile: Option<string>)
      modifies this`downloadedVideos
      ensures SearchTarget(site, maxDownloads, query).None? || !HasEntries(fetch) ==>
                r == [] && metadataFile.None? && downloadedVideos == old(downloadedVideos)
      ensures SearchTarget(site, maxDownloads, query).Some? && HasEntries(fetch) ==>
                && downloadedVideos == old(downloadedVideos) + Records(fetch.entries.value)
                && r == downloadedVideos
                && metadataFile == Some(PathJoin(metadataDir, SearchMetadataName(site, query)))
    {
      if SearchTarget(site, maxDownloads, query).None? || !HasEntries(fetch) {
        return [], None;
      }
      AddRecords(fetch.entries.value);
      return downloadedVideos, Some(PathJoin(metadataDir, SearchMetadataName(site, query)));
    }

    /**
     * `download_playlist`: yt-dlp runs with a copy of the options with `playlistend`
     * set; only this playlist's records are returned, and they are then added to the
     * cumulative list.
     */
    method DownloadPlaylist(playlistUrl: string, fetch: Fetch)
      returns (r: seq<VideoInfo>, used: YdlOptions, metadataFile: Option<string>)
      modifies this`downloadedVideos
      ensures used == ydlOpts.(playlistEnd := Some(maxDownloads))
      ensures !HasEntries(fetch) ==> r == [] && metadataFile.None? && downloadedVideos == old(downloadedVideos)
      ensures HasEntries(fetch) ==>
                && r == Records(fetch.entries.value)
                && downloadedVideos == old(downloadedVideos) + r
                && metadataFile == Some(PathJoin(metadataDir, "playlist_" + PlaylistId(fetch.id) + ".json"))
    {
      used := ydlOpts.(playlistEnd := Some(maxDownloads));
      if !HasEntries(fetch) {
        return [], used, None;
      }
      var entries := fetch.entries.value;
      var playlistVideos: seq<VideoInfo> := [];
      var i := 0;
      while i < |entries|
        invariant 0 <= i <= |entries|
        invariant playlistVideos == Records(entries[..i])
        invariant downloadedVideos == old(downloadedVideos)
      {
        RecordsStep(entries, i);
        if entries[i].Some? {
          playlistVideos := playlistVideos + [Record(entries[i].value)];
        }
        i := i + 1;
      }
      assert entries[..i] == entries;
      var playlistId := PlaylistId(fetch.id);
      metadataFile := Some(PathJoin(metadataDir, "playlist_" + playlistId + ".json"));
      downloadedVideos := downloadedVideos + playlistVideos;
      r := playlistVideos;
    }

    /**
     * `get_download_summary`: `names` is the listing of the output directory and
     * `readable` the `duration` keys of the info files that load. The TypeError of
     * adding None is the failure.
     */
    method GetDownloadSummary(names: seq<string>, readable: map<string, Field<int>>) returns (s: Result<Summary>)
      ensures s.Failure? <==> SummaryTotal(downloadedVideos, names, readable).None?
      ensures s.Success? ==>
                && s.value.totalVideos == CountSuffix(names, ".mp4")
                && s.value.hours * 3600 + s.value.minutes * 60 + s.value.seconds
                   == SummaryTotal(downloadedVideos, names, readable).value
                && 0 <= s.value.minutes < 60 && 0 <= s.value.seconds < 60
                && s.value.totalDuration == DurationText(s.value.hours, s.value.minutes, s.value.seconds)
                && s.value.outputDirectory == outputDir
    {
      var mp4 := CountMp4(names);
      var total := AddDurations(downloadedVideos);
      if total.None? {
        return Failure("TypeError");
      }
      if total.value == 0 || |downloadedVideos| == 0 {
        var extra := AddInfoDurations(names, readable);
        if extra.None? {
          return Failure("TypeError");
        }
        total := Some(total.value + extra.value);
      }
      var hms := Hms(total.value);
      return Success(Summary(mp4, hms.0, hms.1, hms.2, DurationText(hms.0, hms.1, hms.2), outputDir));
    }
  }

  /** The list comprehension counting the `.mp4` files of the listing. */
  method CountMp4(names: seq<string>) returns (n: nat)
    ensures n == CountSuffix(names, ".mp4")
  {
    n := 0;
    var k := 0;
    while k < |names|
      invariant 0 <= k <= |names| && n == CountSuffix(names[..k], ".mp4")
    {
      assert names[..k + 1][..k] == names[..k];
      if EndsWith(names[k], ".mp4") {
        n := n + 1;
      }
      k := k + 1;
    }
    assert names[..k] == names;
  }

  /** The loop adding up the records' durations; None where `+=` meets a None duration. */
  method AddDurations(videos: seq<VideoInfo>) returns (total: Option<int>)
    ensures total == DurationSum(videos)
  {
    var t := 0;
    var i := 0;
    while i < |videos|
      invariant 0 <= i <= |videos| && DurationSum(videos[..i]) == Some(t)
    {
      assert videos[..i + 1][..i] == videos[..i];
      var d := videos[i].duration;
      if d.None? {
        DurationSumNull(videos);
        assert videos[i].duration.None?;
        return None;
      }
      t := t + d.value;
      i := i + 1;
    }
    assert videos[..i] == videos;
    return Some(t);
  }

  /** The loop over the `.info.json` files; None where `+=` meets a None duration. */
  method AddInfoDurations(names: seq<string>, readable: map<string, Field<int>>) returns (total: Option<int>)
    ensures total == InfoSum(names, readable)
  {
    var t := 0;
    var j := 0;
    while j < |names|
      invariant 0 <= j <= |names| && InfoSum(names[..j], readable) == Some(t)
    {
      assert names[..j + 1][..j] == names[..j];
      if EndsWith(names[j], ".info.json") && names[j] in readable {
        match readable[names[j]]
        case Missing =>
        case Null =>
          InfoSumNull(names, readable);
          assert NullInfo(names[j], readable);
          return None;
        case Value(v) =>
          t := t + v;
      }
      j := j + 1;
    }
    assert names[..j] == names;
    return Some(t);
  }

  // ---------------------------------------------------------------------------
  // Preset choice of main

  const SakuraQueries: seq<string> := [
    "日本 桜", "cherry blossom japan", "sakura japan", "桜 名所",
    "桜 4K", "桜 タイムラプス", "京都 桜", "東京 桜"
  ]

  const SakuraPlaylists: seq<string> := [
    "https://www.youtube.com/playlist?list=PLaGbbRbRmQIbAekzGTCrtVCDirtmKM7ru",
    "https://www.youtube.com/playlist?list=PLVc8Zw3MujdHOLWWJ9bkkmn-bX78Oo996",
    "https://www.youtube.com/playlist?list=PLVc8Zw3MujdE_obvo2PbIzYEdCvTzlasR"
  ]

  /** The query and the playlist `main` goes on with. */
  datatype Args = Args(query: Option<string>, playlist: Option<string>)

  /** The preset index `int(choice[1:]) - 1`, if it parses and is in range. */
  function PresetIndex(choice: string, count: nat): (r: Option<nat>)
    requires |choice| >= 1
    ensures r.Some? <==> ParseInt(choice[1..]).Some? && 1 <= ParseInt(choice[1..]).value <= count
    ensures r.Some? ==> r.value < count && r.value == ParseInt(choice[1..]).value - 1
  {
    match ParseInt(choice[1..])
    case None => None
    case Some(k) => if 1 <= k <= count then Some(k - 1) else None
  }

  /**
   * The preset choice: `q<k>` takes query k and clears the playlist, `p<k>` takes
   * playlist k and clears the query; anything else is invalid and `main` returns (None).
   */
  function ApplyChoice(choice: string): (r: Option<Args>)
    ensures r.Some? ==> (r.value.query.Some? <==> r.value.playlist.None?)
    ensures r.Some? && r.value.query.Some? ==> r.value.query.value in SakuraQueries
    ensures r.Some? && r.value.playlist.Some? ==> r.value.playlist.value in SakuraPlaylists
    ensures !StartsWith(choice, "q") && !StartsWith(choice, "p") ==> r.None?
  {
    if StartsWith(choice, "q") then
      match PresetIndex(choice, |SakuraQueries|)
      case None => None
      case Some(i) => Some(Args(Some(SakuraQueries[i]), None))
    else if StartsWith(choice, "p") then
      match PresetIndex(choice, |SakuraPlaylists|)
      case None => None
      case Some(i) => Some(Args(None, Some(SakuraPlaylists[i])))
    else None
  }

  /** Typing `q<k>` or `p<k>` for an existing preset k selects exactly that preset. */
  lemma ChoiceSelectsPreset(k: int)
    ensures 1 <= k <= |SakuraQueries| ==> ApplyChoice("q" + Show(k)) == Some(Args(Some(SakuraQueries[k - 1]), None))
    ensures 1 <= k <= |SakuraPlaylists| ==> ApplyChoice("p" + Show(k)) == Some(Args(None, Some(SakuraPlaylists[k - 1])))
    ensures (k < 1 || k > |SakuraQueries|) ==> ApplyChoice("q" + Show(k)).None?
    ensures (k < 1 || k > |SakuraPlaylists|) ==> ApplyChoice("p" + Show(k)).None?
  {
    ParseShow(k);
    assert ("q" + Show(k))[1..] == Show(k);
    assert ("p" + Show(k))[1..] == Show(k);
    assert StartsWith("q" + Show(k), "q");
    assert StartsWith("p" + Show(k), "p") && !StartsWith("p" + Show(k), "q");
  }
}
