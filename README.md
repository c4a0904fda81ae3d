# Sakura YouTube project — a verified model of its core

The project collects cherry-blossom footage and music and turns them into a finished
YouTube video. This Dafny model covers the decisions the Python code makes along the way:

- **Video generator** (`SakuraVideoGenerator`):
  - builds the file inventory and chooses the background track;
  - plans segment durations and assigns files to them;
  - picks each clip's time range and crops or pads it to 3840×2160;
  - writes the text overlays for each style;
  - lays out the title card, the scenes and the ending card on one timeline and fits the music to it.
- **YouTube uploader** (`YouTubeUploader`): the default title, tags and description, the request it sends, and the resumable upload loop with its retry rule.
- **Video downloader** (`SakuraVideoDownloader`): the yt-dlp options, the search target string, the records kept from a result, the download summary, and the preset choice on the command line.
- **BGMer scraper** (`BGMerScraper`): collecting search results without duplicate URLs, and classifying download links as short, long or default.
- **Sound downloader** (`SakuraSoundDownloader`): which link is downloaded, the sanitized file name, and the batch download.

Anything the code gets from outside is a parameter of the model. That covers `random`,
file listings, clip probes, HTTP and yt-dlp results, and whether a file exists or opens.
Each imperative routine is a Dafny method with loops. Its contract ties it to a
specification function, and lemmas prove the properties of that function.

Modules, one per file:

- `wrappers.dfy`: `Option` and `Result`.
- `filtering.dfy`: keeps the present values of a sequence in order.
- `strings.dfy`: the Python `str` operations the code uses.
- `ordered_dict.dfy`: a Python `dict` as an insertion-ordered association list.
- `paths.dfy`: `os.path.join`, `basename` and `splitext`.
- `segment_planning.dfy`, `composition.dfy` and `video_generator.dfy`: the generator.
- `youtube_uploader.dfy`: the uploader.
- `video_downloader.dfy`: the video downloader.
- `bgmer_scraper.dfy`: the scraper.
- `sound_downloader.dfy`: the sound downloader.

`video/sakura_video_generator.py` and `video/youtube_uploader.py` have the same text as the
top-level files of those names, so the same members model both copies.

## Model

| member | source | states |
|---|---|---|
| Filtering.Present | sakura_video_generator.py:299-339 | Keeping the slots whose clip opened yields at most as many segments as slots. |
| Filtering.PresentInOrder | music/sakura_sound_downloader.py:115-124 | The i-th kept value is the value at the i-th kept position; kept positions increase; every position holding a value is kept. |
| Filtering.PresentStep | music/sakura_sound_downloader.py:115-124 | Taking one more attempt into account appends its value when it has one and nothing otherwise. |
| Filtering.PresentSlotsAt | sakura_video_generator.py:299-339 | The i-th kept value is the value held at the i-th position that holds one. |
| Filtering.PresentSlotsIncreasing | sakura_video_generator.py:299-339 | The positions of kept values are strictly increasing, so the original order is kept. |
| Filtering.PresentSlotsComplete | sakura_video_generator.py:299-339 | Every position that holds a value is one of the kept positions. |
| Filtering.AllPresent | sakura_video_generator.py:299-339 | When nothing is missing, everything is kept, in place. |
| Strings.ContainsAt | music/bgmer_scraper.py:113-116 | A substring occurring at any position makes `in` true. |
| Strings.Lower | music/sakura_sound_downloader.py:67-71 | `lower` keeps the length and maps every character through ASCII lower-casing. |
| Strings.LowerIdempotent | music/bgmer_scraper.py:110 | Lower-casing twice is lower-casing once. |
| Strings.LowerSuffix | music/sakura_sound_downloader.py:67-71 | The lowered suffix of a string is the suffix of the lowered string. |
| Strings.SkipSpaceSkipsSpace | youtube_uploader.py:278-280 | The scan for the start of the text passes over whitespace only, and stops at a non-whitespace character or the end. |
| Strings.BackSpaceSkipsSpace | youtube_uploader.py:278-280 | The scan back from the end drops whitespace only, and stops after a non-whitespace character or at the start. |
| Strings.StripIsTrimmedSlice | music/bgmer_scraper.py:53 | `strip` returns one contiguous slice, with only whitespace removed on both sides and no whitespace at its ends. |
| Strings.StripIdempotent | youtube_uploader.py:278-280 | Stripping a stripped string changes nothing. |
| Strings.StripEnds | youtube_uploader.py:278-280 | A non-empty stripped string starts and ends with a non-whitespace character. |
| Strings.StripKeepsOut | youtube_uploader.py:278-280 | Stripping adds no character: one absent from the input is absent from the result. |
| Strings.ReplaceChar | music/sakura_sound_downloader.py:138-139 | `replace(c, d)` keeps the length and changes exactly the positions holding `c`. |
| Strings.Count | youtube_uploader.py:278-280 | The count is at most the length, and zero exactly when the character is absent. |
| Strings.CountAppend | youtube_uploader.py:278-280 | Counts add up over concatenation. |
| Strings.IndexOf | sakura_video_downloader.py:95-99 | The first occurrence: the character is there and not before. |
| Strings.Split | youtube_uploader.py:278-280 | `split(",")` always yields at least one piece. |
| Strings.JoinSplit | youtube_uploader.py:278-280 | Joining the pieces of a split with the separator gives back the text. |
| Strings.SplitJoin | youtube_uploader.py:278-280 | Splitting a join of separator-free pieces gives back the pieces. |
| Strings.SplitCount | youtube_uploader.py:278-280 | There is one more piece than separators, and no piece contains the separator. |
| Strings.SplitLength | youtube_uploader.py:278-280 | Splitting yields one more piece than there are separators. |
| Strings.SplitPiecesFree | youtube_uploader.py:278-280 | No piece of a split contains the separator. |
| Strings.CountFirst | youtube_uploader.py:278-280 | The first separator contributes one to the count and the rest come after it. |
| Strings.DigitChar | sakura_video_downloader.py:95-99 | A digit value prints as a decimal digit. |
| Strings.DigitValue | sakura_video_downloader.py:298-300 | A decimal digit reads as a value below 10. |
| Strings.ShowNat | sakura_video_downloader.py:95-99 | `str` of a natural number is a non-empty string of digits. |
| Strings.ParseInt | sakura_video_downloader.py:298-300 | `int(s)` succeeds only on an optionally signed, non-empty run of digits. |
| Strings.DigitsValueShowNat | sakura_video_downloader.py:298-300 | Reading back the digits of a natural number gives the number. |
| Strings.ParseShow | sakura_video_downloader.py:298-300 | `int(str(n)) == n` for every integer. |
| Strings.ShowNatDistinct | sakura_video_generator.py:349-351 | Different numbers print differently. |
| OrderedDict.Keys | music/bgmer_scraper.py:94-118 | The keys in insertion order, one per entry. |
| OrderedDict.Position | music/sakura_sound_downloader.py:45-50 | Finds the first entry with the key. |
| OrderedDict.Put | music/bgmer_scraper.py:100-104 | `d[k] = v` keeps the key order for an existing key and appends a new key. |
| OrderedDict.SetDefault | music/bgmer_scraper.py:187 | `setdefault` only ever appends a missing key. |
| OrderedDict.PutValid | music/bgmer_scraper.py:168-174 | Assignment keeps keys distinct. |
| OrderedDict.PutGet | music/bgmer_scraper.py:168-174 | After `d[k] = v`, key `k` reads `v` and every other key reads as before. |
| OrderedDict.PutHas | music/bgmer_scraper.py:168-174 | After assigning a key, a key is present exactly when it was present before or is the one assigned. |
| OrderedDict.SetDefaultGet | music/bgmer_scraper.py:187 | `setdefault` sets a missing key and leaves an existing one untouched. |
| Paths.RFind | youtube_uploader.py:88 | The last '/' of a path: no '/' after it. |
| Paths.Basename | youtube_uploader.py:88 | `basename` holds no '/' and ends the path. |
| Paths.SplitExtRoot | youtube_uploader.py:88 | `splitext(...)[0]` is a prefix of the name. |
| Paths.BasenameOfJoin | music/sakura_sound_downloader.py:76 | A name without '/' joined to a directory is the basename of the result. |
| Paths.SplitExtStem | youtube_uploader.py:88 | `splitext` of `stem.ext` gives back the stem. |
| SegmentPlanning.MatchingMembers | sakura_video_generator.py:137-150 | A name is listed exactly when it is in the directory, ends with the pattern's extension and is not hidden. |
| SegmentPlanning.InventoryMembers | sakura_video_generator.py:137-177 | A file is in the inventory exactly when the directory exists and lists it, and it matches one of the patterns. |
| SegmentPlanning.ListFiles | sakura_video_generator.py:137-150 | The loop over the glob patterns builds exactly the inventory. |
| SegmentPlanning.MatchingDistinct | sakura_video_generator.py:137-150 | One pattern lists no file twice. |
| SegmentPlanning.DistinctCons | sakura_video_generator.py:137-150 | Prepending a new element keeps a list duplicate-free. |
| SegmentPlanning.InventoryDistinct | sakura_video_generator.py:137-177 | With extensions that are not suffixes of one another, no file is listed twice. |
| SegmentPlanning.SuffixesNest | sakura_video_generator.py:137-150 | Two suffixes of one name nest. |
| SegmentPlanning.Plan | sakura_video_generator.py:276-285 | No more slots than draws. |
| SegmentPlanning.PlanDurations | sakura_video_generator.py:276-285 | The `while remaining_duration > 0` loop computes the slot plan. |
| SegmentPlanning.PlanSum | sakura_video_generator.py:276-285 | Slots fill the content time exactly; no content time means no slot. |
| SegmentPlanning.PlanSlots | sakura_video_generator.py:276-285 | Every slot lies in (0, 15] and within its draw; all but the last equal their draw. |
| SegmentPlanning.PlanCount | sakura_video_generator.py:276-285 | With n slots, 15·n covers the content time and 10·(n−1) falls short of it. |
| SegmentPlanning.SelectFiles | sakura_video_generator.py:288-295 | The sample-then-choice loop computes the assignment. |
| SegmentPlanning.AssignProperties | sakura_video_generator.py:288-295 | One file per slot, all from the list; the sampled part repeats no file, and with enough files none repeats. |
| SegmentPlanning.DistinctCard | sakura_video_generator.py:288-295 | A duplicate-free list has as many elements as its set. |
| SegmentPlanning.CardBound | sakura_video_generator.py:288-295 | A set has no more elements than the list it comes from. |
| SegmentPlanning.AssignRepeats | sakura_video_generator.py:288-295 | More slots than files forces a repeat. |
| SegmentPlanning.SmallSetRepeats | sakura_video_generator.py:288-295 | A list with fewer distinct elements than entries has a duplicate. |
| SegmentPlanning.SelectRange | sakura_video_generator.py:304-310 | The clip lasts exactly the slot; it loops exactly when the source is shorter; a sub-range lies within the source. |
| SegmentPlanning.Scale | sakura_video_generator.py:308-309 | `uniform(0, m)` lies in [0, m]. |
| SegmentPlanning.ConformBounds | sakura_video_generator.py:313-330 | Cropped or padded, the frame is 3840×2160; the crop window and the padding are centred to within a pixel. |
| SegmentPlanning.ProcessSlotShape | sakura_video_generator.py:299-339 | A slot is dropped exactly when its clip fails to load; a kept one has its file, its duration, full-canvas size and 0.5 s fades. |
| SegmentPlanning.SlotResults | sakura_video_generator.py:299-339 | One outcome per slot. |
| SegmentPlanning.OpenSlots | sakura_video_generator.py:299-339 | The `zip` loop with its `try` keeps the segments of the slots that opened, in order. |
| Composition.TitleNamesYear | sakura_video_generator.py:179-194 | A ranking title starts with the year, the others end with it; a regional title starts with the region and a theme title contains the theme. |
| Composition.OverlaysKeepSegments | sakura_video_generator.py:343-392 | One overlay per segment, over the whole segment, at the fixed text positions. |
| Composition.RankingCountsDown | sakura_video_generator.py:349-351 | Ranking overlays count down from the number of segments to 1, with pairwise different ranks. |
| Composition.SeasonalStages | sakura_video_generator.py:358-361 | Seasonal overlays walk through the stages and stay on the last from the fifth on. |
| Composition.PickedAndNumberedTexts | sakura_video_generator.py:352-364 | Regional and theme texts come from their lists with the matching subtext; any other style numbers the scenes from 1. |
| Composition.ChainAppend | sakura_video_generator.py:436-438 | Chained clip lengths add up over concatenation. |
| Composition.ScenesDuration | sakura_video_generator.py:436-438 | The scenes of a timeline last as long as the overlays. |
| Composition.TimelineShape | sakura_video_generator.py:436-438 | The timeline is title, the scenes in order, ending, and lasts their sum. |
| Composition.OverlayTotal | sakura_video_generator.py:343-392 | Overlays last as long as the segments under them. |
| Composition.OverlayTotalFrom | sakura_video_generator.py:343-392 | The same from any position on. |
| Composition.AddMusic | sakura_video_generator.py:394-416 | Music is added only for a set, existing, loadable track; it lasts exactly the video, loops exactly when shorter, otherwise starts at 0 within the track, at gain 0.5; the clips are unchanged. |
| VideoGenerator.ChooseBgm | sakura_video_generator.py:133-135 | A given track is kept; otherwise one of the music files is chosen, or none without files. |
| VideoGenerator.Slots | sakura_video_generator.py:276-285 | No more slots than draws. |
| VideoGenerator.Prepared | sakura_video_generator.py:270-341 | No more segments than draws. |
| VideoGenerator.PreparedProperties | sakura_video_generator.py:270-341 | Each segment comes from the listed files, lasts one planned slot, covers it and fills the canvas; with every clip opening there is one per slot, together filling the content time. |
| VideoGenerator.SegmentTotalMatches | sakura_video_generator.py:299-339 | Segments lasting the slots add up to the slot total. |
| VideoGenerator.FinalVideoShape | sakura_video_generator.py:418-461 | The video is title, one scene per segment, ending; it lasts 10 s plus the segments; the music lasts the whole video. |
| VideoGenerator.SakuraVideoGenerator.constructor | sakura_video_generator.py:90-135 | Output path, inventories, the title (given or generated) and the background track. |
| VideoGenerator.SakuraVideoGenerator.PrepareVideoSegments | sakura_video_generator.py:270-341 | Fails exactly when there are no video files, with that message; otherwise returns the prepared segments. |
| VideoGenerator.SakuraVideoGenerator.AddTextOverlays | sakura_video_generator.py:343-392 | The loop builds exactly the overlays of the style. |
| VideoGenerator.SakuraVideoGenerator.GenerateVideo | sakura_video_generator.py:418-461 | Fails exactly without video files; otherwise writes to the output path the composed video of the prepared segments. |
| VideoGenerator.VideoLength | sakura_video_generator.py:270-285 | When every clip opens, a video longer than 10 s lasts exactly the requested length; a shorter request gives only the two cards. |
| YouTubeUpload.ChooseTitle | youtube_uploader.py:88 | A non-empty given title is kept; otherwise the file name without directory and extension. |
| YouTubeUpload.DefaultTitleIsStem | youtube_uploader.py:88 | For `dir/stem.ext` the default title is `stem`. |
| YouTubeUpload.ChooseTags | youtube_uploader.py:90 | Given non-empty tags are kept; otherwise the 17 default tags; never empty. |
| YouTubeUpload.ParseTags | youtube_uploader.py:278-280 | No tags exactly when the argument is missing or empty. |
| YouTubeUpload.ParseTagsShape | youtube_uploader.py:278-280 | One tag per comma plus one, each the stripped piece, without commas or surrounding whitespace. |
| YouTubeUpload.ParseTagsJoin | youtube_uploader.py:278-280 | Stripped, comma-free tags joined with commas parse back to themselves. |
| YouTubeUpload.Description | youtube_uploader.py:131-154 | An existing description file gives its text; otherwise the generated text, which starts by naming the year. |
| YouTubeUpload.Retries | youtube_uploader.py:221-228 | Retries counted are at most the chunks. |
| YouTubeUpload.UploadSkipsPassing | youtube_uploader.py:208-231 | Progress and retriable errors only advance the loop and the retry counter. |
| YouTubeUpload.RetryRule | youtube_uploader.py:208-231 | A response ends with it; a non-HTTP error or a non-retriable status raises; the twelfth retriable error raises. |
| YouTubeUpload.UploadedIsFirstResponse | youtube_uploader.py:208-231 | A returned response is the first response, preceded only by progress and retriable errors. |
| YouTubeUpload.ResumableUpload | youtube_uploader.py:208-231 | The `while response is None` loop computes the specified outcome. |
| YouTubeUpload.YouTubeUploader.constructor | youtube_uploader.py:67-98 | Fields hold the arguments, the chosen title and the chosen tags. |
| YouTubeUpload.YouTubeUploader.RequestFor | youtube_uploader.py:162-187 | Part "snippet,status", the title, description, tags, category, privacy, not made for kids. |
| YouTubeUpload.YouTubeUploader.UploadVideo | youtube_uploader.py:156-206 | A missing video raises FileNotFound before any request; otherwise the request carries the description and the result is the upload loop's. |
| VideoDownload.Options | sakura_video_downloader.py:61-79 | The format string from the resolution, the output template in the directory, subtitles only when requested, and no playlist end. |
| VideoDownload.SearchTarget | sakura_video_downloader.py:95-103 | No target exactly for an unsupported site. |
| VideoDownload.SearchTargetParts | sakura_video_downloader.py:95-99 | The target is the site's prefix, the count that reads back as `max_downloads`, ':', then the query unchanged. |
| VideoDownload.ShowHasNoColon | sakura_video_downloader.py:95-99 | A printed integer holds no ':'. |
| VideoDownload.SearchMetadataName | sakura_video_downloader.py:126 | A query without spaces appears unchanged in the metadata file name. |
| VideoDownload.SearchMetadataNoSpace | sakura_video_downloader.py:126 | The metadata file name holds no space. |
| VideoDownload.RecordDefaults | sakura_video_downloader.py:109-123 | For all eight fields: a value the entry holds is kept, a None value stays None, and a missing key becomes "unknown" (text fields) or 0 (duration and counts). |
| VideoDownload.Records | sakura_video_downloader.py:109-123 | One record per present entry, in order. |
| VideoDownload.RecordsSkipNone | sakura_video_downloader.py:109-123 | Empty entries are skipped and every present entry is recorded. |
| VideoDownload.RecordsNullDuration | sakura_video_downloader.py:111-121 | The records hold a None duration exactly when some present entry has `'duration': None`. |
| VideoDownload.RecordsStep | sakura_video_downloader.py:111-123 | One more entry adds its record when it is present and nothing when it is empty. |
| VideoDownload.SakuraVideoDownloader.AddRecords | sakura_video_downloader.py:111-123 | The loop over the entries appends exactly the records of the present entries, in order; its frame is `downloadedVideos` alone, so no other field changes. |
| VideoDownload.Hms | sakura_video_downloader.py:227-228 | `divmod` gives hours, minutes and seconds that make up the total, with minutes and seconds below 60. |
| VideoDownload.CountSuffix | sakura_video_downloader.py:208-209 | The `.mp4` count is at most the listing. |
| VideoDownload.DurationSumNull | sakura_video_downloader.py:212-214 | Adding up the records' durations raises exactly when one of them is None. |
| VideoDownload.InfoSumNull | sakura_video_downloader.py:216-225 | Adding up the info files raises exactly when a listed `.info.json` file that loads has `'duration': None`; a missing key adds 0, and a file that has vanished or is not valid JSON adds nothing. |
| VideoDownload.SummaryTotal | sakura_video_downloader.py:212-225 | Fails exactly on a None record duration, or on a None info-file duration when the records add up to 0 (as they do when there are none); otherwise the records' total when it is not 0, else the info files' total. |
| VideoDownload.SakuraVideoDownloader.constructor | sakura_video_downloader.py:22-79 | Default output directory from the clock stamp, the metadata directory inside it, an empty record list, the options. |
| VideoDownload.SakuraVideoDownloader.SearchAndDownload | sakura_video_downloader.py:81-141 | An unsupported site or a result without entries (or with `entries` None, which raises into the handler) returns `[]` and changes nothing; otherwise the records are appended and the whole list is returned with the metadata file named. Only `downloadedVideos` may change. |
| VideoDownload.SakuraVideoDownloader.DownloadPlaylist | sakura_video_downloader.py:143-198 | A copy of the options with the playlist end set is used; without entries nothing changes; otherwise this playlist's records are returned and appended, and the metadata file is `playlist_<id>.json` with `unknown_playlist` for a missing id and `None` for a None id. Only `downloadedVideos` may change. |
| VideoDownload.SakuraVideoDownloader.GetDownloadSummary | sakura_video_downloader.py:200-235 | Fails (the uncaught TypeError) exactly when the summary total does; otherwise the `.mp4` count, hours, minutes and seconds that make up the total with minutes and seconds below 60, its text, and the output directory. |
| VideoDownload.CountMp4 | sakura_video_downloader.py:208-209 | Counts exactly the `.mp4` names of the listing. |
| VideoDownload.AddDurations | sakura_video_downloader.py:212-214 | The `+=` loop over the records gives their duration total, or fails on a None duration. |
| VideoDownload.AddInfoDurations | sakura_video_downloader.py:216-225 | The loop over the info files gives their duration total, or fails on a None duration. |
| VideoDownload.PresetIndex | sakura_video_downloader.py:296-324 | An index exactly when the rest reads as a number between 1 and the preset count. |
| VideoDownload.ApplyChoice | sakura_video_downloader.py:296-324 | A valid choice sets exactly one of query and playlist, from the presets; a choice not starting with q or p is refused. |
| VideoDownload.ChoiceSelectsPreset | sakura_video_downloader.py:255-324 | `q<k>` and `p<k>` select the k-th preset, and out-of-range k is refused. |
| Bgmer.Urls | music/bgmer_scraper.py:57 | The collected URLs, one per record. |
| Bgmer.IsCollected | music/bgmer_scraper.py:57 | The `any(...)` scan is true exactly when the URL was collected. |
| Bgmer.CollectItems | music/bgmer_scraper.py:48-66 | The loop over one page's items adds exactly the specified records. |
| Bgmer.SearchSakuraMusic | music/bgmer_scraper.py:21-75 | The nested loops compute the specified search results; a page that failed is skipped. |
| Bgmer.UrlsGrow | music/bgmer_scraper.py:66 | Appending keeps every collected URL. |
| Bgmer.AddItemPrefix | music/bgmer_scraper.py:48-66 | Handling one item never changes or removes the records already collected. |
| Bgmer.AddItemNew | music/bgmer_scraper.py:49-66 | One item either leaves the list alone or appends exactly one record: its stripped title, a URL not yet collected, and the search keyword, with no links or description yet. |
| Bgmer.AddItemCollects | music/bgmer_scraper.py:49-66 | After an item with a title link, its URL is among the collected ones, whether it was new or a duplicate. |
| Bgmer.AddItemMadeFrom | music/bgmer_scraper.py:49-64 | A record appended for an item of a page carries the keyword and is made from that item's title link. |
| Bgmer.SearchResultsStep | music/bgmer_scraper.py:33-66 | The results for all keywords extend the results for all but the last keyword. |
| Bgmer.AddItemsPrefix | music/bgmer_scraper.py:48-66 | The records collected before a page stay a prefix. |
| Bgmer.AddItemsDistinct | music/bgmer_scraper.py:56-58 | A page's items never introduce a duplicate URL. |
| Bgmer.AddItemsComplete | music/bgmer_scraper.py:48-66 | Every anchored item's URL ends up collected. |
| Bgmer.AddItemsSound | music/bgmer_scraper.py:49-64 | Each new record has the page's keyword and the URL and stripped title of an anchored item. |
| Bgmer.SearchResultsGrow | music/bgmer_scraper.py:33-66 | Records collected for earlier keywords stay as they were. |
| Bgmer.SearchResultsDistinct | music/bgmer_scraper.py:56-66 | The results never hold two records with the same URL. |
| Bgmer.SearchResultsComplete | music/bgmer_scraper.py:33-73 | Every URL an anchored item of a loaded page lists is collected, whatever failed for other keywords. |
| Bgmer.SearchResultsSound | music/bgmer_scraper.py:49-64 | Each record comes from an anchored item on its own keyword's page. |
| Bgmer.FirstKeywordWins | music/bgmer_scraper.py:56-66 | The record for a URL was collected by the first keyword whose page lists it. |
| Bgmer.Kind | music/bgmer_scraper.py:113-118 | "short" exactly when the lowered text contains it; "long" when it contains that and not "short"; otherwise "default". |
| Bgmer.FallbackLinks | music/bgmer_scraper.py:107-118 | The loop over the download buttons computes the specified fallback links. |
| Bgmer.GetMusicDetails | music/bgmer_scraper.py:77-141 | The record with its links and stripped description, or no links and an empty description on an error. |
| Bgmer.ButtonLinksValid | music/bgmer_scraper.py:107-118 | The fallback keeps keys distinct. |
| Bgmer.ButtonLinksHas | music/bgmer_scraper.py:107-118 | A kind is present exactly when some button with an `.mp3` href has it. |
| Bgmer.ButtonLinksHasMp3 | music/bgmer_scraper.py:107-118 | An ".mp3" button of a kind puts that kind into the fallback. |
| Bgmer.ButtonLinksHasWitness | music/bgmer_scraper.py:107-118 | Every kind in the fallback comes from some ".mp3" button of that kind. |
| Bgmer.ButtonLinksKinds | music/bgmer_scraper.py:107-118 | Keys are only short, long and default. |
| Bgmer.ButtonLinksLast | music/bgmer_scraper.py:107-118 | Each kind holds the href of the last button of that kind; default overwrites. |
| Bgmer.DetailLinksFallback | music/bgmer_scraper.py:97-118 | The fallback runs only when neither SHORT nor LONG was found; otherwise the links are exactly those two hrefs. |
| Bgmer.PutUrlsAppend | music/bgmer_scraper.py:163-174 | Assigning the URLs of one script after those of the earlier scripts is assigning all of them in order. |
| Bgmer.PutScriptUrls | music/bgmer_scraper.py:168-174 | The loop over one script's URLs assigns each of them under its kind, in order, onto the links given. |
| Bgmer.ScriptPass | music/bgmer_scraper.py:163-174 | The loop over the scripts with text computes the specified links. |
| Bgmer.AnchorPass | music/bgmer_scraper.py:177-187 | The loop over the `.mp3` anchors computes the specified links. |
| Bgmer.ExtractDownloadLinks | music/bgmer_scraper.py:143-193 | The script pass then the anchor pass; an error gives no links. |
| Bgmer.ScriptLinksValid | music/bgmer_scraper.py:168-174 | The script pass keeps keys distinct. |
| Bgmer.ScriptLinksHas | music/bgmer_scraper.py:168-174 | A kind is present exactly when some URL is of it. |
| Bgmer.ScriptLinksHasKind | music/bgmer_scraper.py:163-174 | A script URL of a kind puts that kind into the links. |
| Bgmer.ScriptLinksHasWitness | music/bgmer_scraper.py:163-174 | Every kind in the script links comes from some script URL of that kind. |
| Bgmer.ScriptLinksLast | music/bgmer_scraper.py:168-174 | Later URLs overwrite earlier ones of their kind. |
| Bgmer.ShortBeforeLong | music/bgmer_scraper.py:168-172 | A URL naming both short and long is a short link. |
| Bgmer.AnchorKeepsDefault | music/bgmer_scraper.py:182-187 | A default found before the anchor pass is kept. |
| Bgmer.AnchorLinksLast | music/bgmer_scraper.py:182-187 | Short and long anchors overwrite: each holds the last anchor of its kind. |
| Bgmer.AnchorLinksValid | music/bgmer_scraper.py:182-187 | The anchor pass keeps keys distinct. |
| Bgmer.DetailsOnError | music/bgmer_scraper.py:137-141 | On an error the record gets no links and an empty description, and extraction gives none. |
| SoundDownload.Replaced | music/sakura_sound_downloader.py:137-139 | Replacing keeps the length. |
| SoundDownload.SanitizedProperties | music/sakura_sound_downloader.py:137-145 | Length min(len, 100), no invalid character, other characters unchanged in place. |
| SoundDownload.SanitizedIdempotent | music/sakura_sound_downloader.py:137-145 | Sanitizing twice is sanitizing once. |
| SoundDownload.Extension | music/sakura_sound_downloader.py:67-74 | One of `.mp3`, `.wav`, `.ogg`: the link's own by its lowered ending, else `.mp3`. |
| SoundDownload.ExtensionFromLink | music/sakura_sound_downloader.py:67-74 | The extension is the link's own lowered ending or the `.mp3` default, and it is `.mp3` exactly when the link ends in `.mp3` or in none of the other two. |
| SoundDownload.ExtensionOfLink | music/sakura_sound_downloader.py:67-74 | A link ending in one of the three, in any letter case, keeps it. |
| SoundDownload.FileNameBounds | music/sakura_sound_downloader.py:60-74 | The file name has 4 to 110 characters and no '/'. |
| SoundDownload.Truthy | music/sakura_sound_downloader.py:55-57 | An empty link counts as none. |
| SoundDownload.ChooseLink | music/sakura_sound_downloader.py:39-57 | No links gives nothing; a chosen link is non-empty and one of the dict's values. |
| SoundDownload.LinkPriority | music/sakura_sound_downloader.py:44-53 | Long only when preferred, then short, then default, then the first value. |
| SoundDownload.SuffixNamesLink | music/sakura_sound_downloader.py:61-64 | `_long` marks the long link, `_short` the short one; no suffix otherwise. |
| SoundDownload.OnlyLongWithoutPreference | music/sakura_sound_downloader.py:44-64 | Without a preference for long, a dict holding only long uses it without a suffix. |
| SoundDownload.Download | music/sakura_sound_downloader.py:28-102 | A path exactly when there is a usable link and the transfer works; never empty. |
| SoundDownload.Attempts | music/sakura_sound_downloader.py:117-119 | One attempt per track, in order. |
| SoundDownload.DownloadPath | music/sakura_sound_downloader.py:76 | The file lies in the download directory under its built name. |
| SoundDownload.BatchProperties | music/sakura_sound_downloader.py:104-124 | At most one path per track, each non-empty and from a successful attempt; every track gives a path when all succeed. |
| SoundDownload.SakuraSoundDownloader.constructor | music/sakura_sound_downloader.py:11-26 | Keeps the download directory. |
| SoundDownload.SakuraSoundDownloader.SanitizeFilename | music/sakura_sound_downloader.py:126-145 | The `replace` loop and the cut compute the sanitized name. |
| SoundDownload.SakuraSoundDownloader.SelectLink | music/sakura_sound_downloader.py:44-53 | The if-chain picks the specified link. |
| SoundDownload.SakuraSoundDownloader.BuildFileName | music/sakura_sound_downloader.py:60-74 | The `+=` steps build the specified file name. |
| SoundDownload.SakuraSoundDownloader.DownloadMusic | music/sakura_sound_downloader.py:28-102 | Returns the specified path or None. |
| SoundDownload.SakuraSoundDownloader.DownloadAllMusic | music/sakura_sound_downloader.py:104-124 | Keeps the truthy paths of the attempts, in order. |

## Left out

- Rendering with MoviePy is not modelled: text images, compositing, resizing pixels and writing the video file. Clips are values that carry their duration, time range, geometry, fades and texts.
- Randomness is not modelled. Each `random.uniform`, `random.sample` and `random.choice` is a parameter bounded as the library promises. `time.sleep(random.uniform(1, 3))` has no effect on results and is left out.
- File-system access is not modelled: `glob`, `os.path.exists`, `os.makedirs`, `os.listdir`, opening files, JSON reading and writing, and removing partial downloads.
  - Directories are lists of names. `glob.glob(os.path.join(dir, pattern))` returns paths with the directory in front; the inventories and the chosen background track in the model are the bare names, without that directory.
  - Existence and load outcomes are parameters.
  - A failed metadata write is not modelled.
- Network access is not modelled: HTTP sessions, yt-dlp, the YouTube API and OAuth (`_get_authenticated_service`). Their outcomes are parameters: fetch results, chunk outcomes, page contents.
- HTML parsing and regular expressions are not modelled. A page is what the selectors and `re.findall` found on it. A missing `href` is "", which Python's truthiness treats like None. The duplicate check of `search_sakura_music` compares URLs with `==`, where None and "" differ: the source keeps both a record without `href` and one with an empty `href`, while the model drops the second as a duplicate.
- URL building with `urllib.parse.quote` in `search_sakura_music` is not modelled, so the search page for each keyword is a parameter.
- Durations in the generator are reals. In the downloader summary they are integers, so yt-dlp's float durations are not modelled. A duration of another type (a string, say), which would also make `+=` raise, is not modelled either; a None duration is.
- Strings.Lower: lower-cases ASCII letters only, not Python's full Unicode `lower`.
- Strings.ParseInt: does not accept the surrounding whitespace, digit underscores or non-ASCII Unicode decimal digits that Python's `int` also accepts, so a choice such as `q١` (Arabic-Indic one), which Python reads as preset 1, is refused.
- Command-line parsing (`argparse`, `input`, `sys.argv`), printing and `main` wiring are left out. The preset choice is modelled as `ApplyChoice`.
- YouTubeUpload.YouTubeUploader.UploadVideo: a response is an opaque string, so the `KeyError` that `response['id']` or `response['snippet']['title']` would raise on a response without those keys, and its re-raise, is not modelled.
- YouTubeUpload.ResumableUpload: the chunk outcomes are a finite sequence that ends in a final outcome. A server that never sends a final response, on which `while response is None` would loop forever, is not modelled.
- `download_time` in the download summary comes from the clock and is left out.
- `get_music_details` updates its argument in place. The model returns the updated record, so aliasing with the caller's dict is not modelled.
- VideoDownload.SakuraVideoDownloader.SearchAndDownload: the source returns the `downloaded_videos` list object itself, so a caller's list grows later when `download_playlist` extends it. The model returns a copy of the list, so that aliasing is not modelled.
- VideoDownload.InfoSum: only the two errors the source catches are modelled, a file that has vanished (`FileNotFoundError`) and invalid JSON (`JSONDecodeError`). Other read errors propagate out of `get_download_summary` in the source and are not modelled: a file that is not UTF-8 (`UnicodeDecodeError`), a directory (`IsADirectoryError`), an unreadable file (`PermissionError`), and JSON that is not an object (`AttributeError` on `.get`).
- YouTubeUpload.Description: `found` means the description file exists and reads as text. A path that exists but is a directory or is not UTF-8 raises out of `upload_video` in the source, before the `try`, because `_get_description` runs first. The model gives the file's text or the generated text and does not model that error.
- Narration (`use_narration`) and sound effects are stored but never used by the code. They have no behaviour to model.
- `music/bgmer_scraper_optimized.py`, `music/sakura_sound_scraper.py` and the test files are not part of this model.
