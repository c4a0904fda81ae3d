/**
 * `YouTubeUploader`: the title, tag and description defaults, the request built by
 * `upload_video`, the retry loop of `_resumable_upload` over the outcomes of
 * successive `next_chunk` calls, and the tag splitting of `main`. OAuth, the API
 * client and the file system are left out; what they report is a parameter.
 */
module YouTubeUpload {
  import opened Wrappers
  import opened Strings
  import opened Paths

  const DefaultCategory: string := "22"
  const DefaultPrivacy: string := "private"
  const DefaultTags: seq<string> := [
    "桜", "さくら", "サクラ", "cherry blossom", "japan", "日本", "春", "spring",
    "花見", "hanami", "自然", "nature", "風景", "landscape", "4K", "絶景", "beautiful"
  ]

  // ---------------------------------------------------------------------------
  // Defaults of __init__

  /** `title or os.path.splitext(os.path.basename(video_file))[0]`. */
  function ChooseTitle(title: Option<string>, videoFile: string): (r: string)
    ensures title.Some? && title.value != "" ==> r == title.value
    ensures title.None? || title.value == "" ==> r == SplitExtRoot(Basename(videoFile))
  {
    if title.Some? && title.value != "" then title.value else SplitExtRoot(Basename(videoFile))
  }

  /**
   * Without a usable title, a video stored as `<dir>/<stem>.<ext>` is titled by its
   * stem.
   */
  lemma DefaultTitleIsStem(dir: string, stem: string, ext: string, title: Option<string>)
    requires '/' !in stem && '/' !in ext && '.' !in ext
    requires |stem| > 0 && stem[0] != '.'
    requires title.None? || title.value == ""
    ensures ChooseTitle(title, PathJoin(dir, stem + "." + ext)) == stem
  {
    assert '/' !in stem + "." + ext by {
      forall k | 0 <= k < |stem + "." + ext| ensures (stem + "." + ext)[k] != '/' {
        if k < |stem| { assert (stem + "." + ext)[k] == stem[k]; }
        else if k > |stem| { assert (stem + "." + ext)[k] == ext[k - |stem| - 1]; }
      }
    }
    BasenameOfJoin(dir, stem + "." + ext);
    SplitExtStem(stem, ext);
  }

  /** `tags or DEFAULT_TAGS`: a missing or empty list falls back to the defaults. */
  function ChooseTags(tags: Option<seq<string>>): (r: seq<string>)
    ensures tags.Some? && tags.value != [] ==> r == tags.value
    ensures tags.None? || tags.value == [] ==> r == DefaultTags
    ensures r != []
  {
    if tags.Some? && tags.value != [] then tags.value else DefaultTags
  }

  // ---------------------------------------------------------------------------
  // Tag splitting of main

  /** `[tag.strip() for tag in args.tags.split(",")]` when `args.tags` is set and non-empty. */
  function ParseTags(arg: Option<string>): (r: Option<seq<string>>)
    ensures arg.None? || arg.value == "" <==> r.None?
  {
    if arg.None? || arg.value == "" then None
    else
      var parts := Split(arg.value, ',');
      Some(seq(|parts|, k requires 0 <= k < |parts| => Strip(parts[k])))
  }

  /**
   * A tag argument yields one more tag than it has commas; no tag contains a comma
   * or starts or ends with whitespace, and each is the stripped piece between commas.
   */
  lemma ParseTagsShape(arg: string)
    requires arg != ""
    ensures ParseTags(Some(arg)).Some?
    ensures |ParseTags(Some(arg)).value| == Count(arg, ',') + 1
    ensures forall k :: 0 <= k < |ParseTags(Some(arg)).value| ==>
              var t := ParseTags(Some(arg)).value[k];
              && ',' !in t
              && (t == [] || (!IsSpace(t[0]) && !IsSpace(t[|t| - 1])))
              && t == Strip(Split(arg, ',')[k])
  {
    SplitCount(arg, ',');
    var parts := Split(arg, ',');
    var r := ParseTags(Some(arg)).value;
    forall k | 0 <= k < |r|
      ensures ',' !in r[k]
      ensures r[k] == [] || (!IsSpace(r[k][0]) && !IsSpace(r[k][|r[k]| - 1]))
      ensures r[k] == Strip(parts[k])
    {
      assert r[k] == Strip(parts[k]);
      StripIsTrimmedSlice(parts[k]);
      StripKeepsOut(parts[k], ',');
    }
  }

  /** Tags free of commas and of surrounding whitespace survive a trip through the command line. */
  lemma ParseTagsJoin(tags: seq<string>)
    requires |tags| >= 1
    requires forall k :: 0 <= k < |tags| ==> ',' !in tags[k] && Strip(tags[k]) == tags[k]
    requires Join(tags, ",") != ""
    ensures ParseTags(Some(Join(tags, ","))) == Some(tags)
  {
    var s := Join(tags, [',']);
    SplitJoin(tags, ',');
    var parts := Split(s, ',');
    assert parts == tags;
    var r := seq(|parts|, k requires 0 <= k < |parts| => Strip(parts[k]));
    assert ParseTags(Some(s)) == Some(r);
    assert |r| == |tags|;
    forall k | 0 <= k < |r|
      ensures r[k] == tags[k]
    {
      assert r[k] == Strip(tags[k]);
    }
    assert r == tags;
  }

  // ---------------------------------------------------------------------------
  // Description and request

  /** The first line of the generated description, without its line break. */
  function DescriptionHead(year: int): string {
    "日本の美しい桜の風景 " + Show(year)
  }

  /** The rest of the generated description, from the blank line after the head. */
  const DescriptionBody: string :=
    "\n\n"
    + "この動画では日本各地の美しい桜の風景をお届けします。\n"
    + "春の訪れを告げる桜は、日本文化において特別な存在です。\n\n"
    + "#桜 #日本 #春 #cherryblossom #japan #spring #花見\n\n"
    + "撮影地:\n- 日本各地の桜の名所\n\n"
    + "音楽:\n- フリー素材を使用\n\n"
    + "※この動画は自動生成されています。\n"

  /** The description generated when no description file can be read. */
  function DefaultDescription(year: int): string {
    DescriptionHead(year) + DescriptionBody
  }

  /**
   * `_get_description`: the file's text when a description file is set and `found`
   * (it exists and reads as `text`); otherwise the generated text for `year`. A file
   * that exists but cannot be read as text is not modelled.
   */
  function Description(descriptionFile: Option<string>, found: bool, text: string, year: int): (r: string)
    ensures descriptionFile.Some? && descriptionFile.value != "" && found ==> r == text
    ensures !(descriptionFile.Some? && descriptionFile.value != "" && found) ==>
              StartsWith(r, "日本の美しい桜の風景 " + Show(year))
  {
    if descriptionFile.Some? && descriptionFile.value != "" && found then text
    else
      StartsWithAppend(DescriptionHead(year), DescriptionBody);
      DefaultDescription(year)
  }

  /** The request body of `upload_video`. */
  datatype Snippet = Snippet(title: string, description: string, tags: seq<string>, categoryId: string)
  datatype Status = Status(privacyStatus: string, selfDeclaredMadeForKids: bool)
  datatype Body = Body(snippet: Snippet, status: Status)

  /** The keys of the body dict, in insertion order. */
  const BodyKeys: seq<string> := ["snippet", "status"]

  /** The `videos().insert` call: the parts joined with ',' and the body. */
  datatype Request = Request(part: string, body: Body)

  // ---------------------------------------------------------------------------
  // Resumable upload

  /** What one `request.next_chunk()` does. */
  datatype Chunk =
    | Progress          // a status and no response yet
    | Done(response: string)
    | HttpFailure(status: int)
    | OtherFailure(message: string)

  datatype UploadError = FileNotFound(path: string) | HttpError(status: int) | OtherError(message: string)
  datatype Upload = Uploaded(response: string) | Raised(error: UploadError)

  /** The 5xx statuses the loop retries. */
  predicate Retriable(status: int) {
    status in {500, 502, 503, 504}
  }

  /** A chunk after which the loop certainly stops. */
  predicate Final(c: Chunk) {
    c.Done? || c.OtherFailure? || (c.HttpFailure? && !Retriable(c.status))
  }

  /** The outcomes available to the loop; the last one ends it whatever the counter. */
  predicate Outcomes(chunks: seq<Chunk>) {
    |chunks| > 0 && Final(chunks[|chunks| - 1])
  }

  /** The loop from the given chunk on, with the retry counter at `retry`. */
  function UploadFrom(chunks: seq<Chunk>, retry: nat): Upload
    requires Outcomes(chunks)
    decreases |chunks|
  {
    match chunks[0]
    case Done(response) => Uploaded(response)
    case Progress => UploadFrom(chunks[1..], retry)
    case OtherFailure(m) => Raised(OtherError(m))
    case HttpFailure(s) =>
      if !Retriable(s) || retry > 10 then Raised(HttpError(s))
      else UploadFrom(chunks[1..], retry + 1)
  }

  /** A chunk the loop gets past: progress or a retriable error. */
  predicate Passing(c: Chunk) {
    c.Progress? || (c.HttpFailure? && Retriable(c.status))
  }

  /** The retriable errors among some chunks. */
  function Retries(cs: seq<Chunk>): (n: nat)
    ensures n <= |cs|
  {
    if cs == [] then 0 else (if cs[0].HttpFailure? then 1 else 0) + Retries(cs[1..])
  }

  /**
   * Progress does not reset the counter: after progress and at most 11 retriable
   * errors in all, the loop stands at the next chunk with the counter at their number.
   */
  lemma {:induction false} UploadSkipsPassing(prefix: seq<Chunk>, rest: seq<Chunk>, retry: nat)
    requires Outcomes(rest)
    requires forall i :: 0 <= i < |prefix| ==> Passing(prefix[i])
    requires retry + Retries(prefix) <= 11
    ensures Outcomes(prefix + rest)
    ensures UploadFrom(prefix + rest, retry) == UploadFrom(rest, retry + Retries(prefix))
  {
    var all := prefix + rest;
    assert all[|all| - 1] == rest[|rest| - 1];
    if prefix != [] {
      var retry' := retry + (if prefix[0].HttpFailure? then 1 else 0);
      assert all[0] == prefix[0] && all[1..] == prefix[1..] + rest;
      assert Retries(prefix) == (if prefix[0].HttpFailure? then 1 else 0) + Retries(prefix[1..]);
      UploadSkipsPassing(prefix[1..], rest, retry');
      assert UploadFrom(all, retry) == UploadFrom(all[1..], retry');
    } else {
      assert all == rest;
    }
  }

  /**
   * The retry rule: after progress and at most 11 retriable errors the loop returns the
   * first response, and raises at once at any other failure; a 12th retriable error
   * raises it.
   */
  lemma RetryRule(prefix: seq<Chunk>, c: Chunk, rest: seq<Chunk>)
    requires Outcomes([c] + rest)
    requires forall i :: 0 <= i < |prefix| ==> Passing(prefix[i])
    requires Retries(prefix) <= 11
    ensures Outcomes(prefix + [c] + rest)
    ensures c.Done? ==> UploadFrom(prefix + [c] + rest, 0) == Uploaded(c.response)
    ensures c.OtherFailure? ==> UploadFrom(prefix + [c] + rest, 0) == Raised(OtherError(c.message))
    ensures c.HttpFailure? && !Retriable(c.status) ==>
              UploadFrom(prefix + [c] + rest, 0) == Raised(HttpError(c.status))
    ensures c.HttpFailure? && Retriable(c.status) && Retries(prefix) == 11 ==>
              UploadFrom(prefix + [c] + rest, 0) == Raised(HttpError(c.status))
  {
    assert prefix + [c] + rest == prefix + ([c] + rest);
    UploadSkipsPassing(prefix, [c] + rest, 0);
  }

  /** The loop returns a response only if some chunk delivered it, and the first such. */
  lemma {:induction false} UploadedIsFirstResponse(chunks: seq<Chunk>, retry: nat)
    requires Outcomes(chunks)
    ensures UploadFrom(chunks, retry).Uploaded? ==>
              exists i :: 0 <= i < |chunks| && chunks[i] == Done(UploadFrom(chunks, retry).response)
                          && forall j :: 0 <= j < i ==> Passing(chunks[j])
    decreases |chunks|
  {
    var r := UploadFrom(chunks, retry);
    if r.Uploaded? && !chunks[0].Done? {
      var retry' := if chunks[0].HttpFailure? then retry + 1 else retry;
      assert r == UploadFrom(chunks[1..], retry');
      UploadedIsFirstResponse(chunks[1..], retry');
      var i :| 0 <= i < |chunks[1..]| && chunks[1..][i] == Done(r.response)
               && forall j :: 0 <= j < i ==> Passing(chunks[1..][j]);
      assert chunks[i + 1] == Done(r.response);
      assert forall j :: 1 <= j < i + 1 ==> chunks[j] == chunks[1..][j - 1];
    }
  }

  /** `_resumable_upload`: call `next_chunk` until a response arrives or an error is raised. */
  method ResumableUpload(chunks: seq<Chunk>) returns (r: Upload)
    requires Outcomes(chunks)
    ensures r == UploadFrom(chunks, 0)
  {
    var response: Option<string> := None;
    var retry: nat := 0;
    var i := 0;
    while response.None?
      invariant 0 <= i < |chunks|
      invariant response.None? ==> UploadFrom(chunks[i..], retry) == UploadFrom(chunks, 0)
      invariant response.Some? ==> Uploaded(response.value) == UploadFrom(chunks, 0)
      decreases |chunks| - i, if response.None? then 1 else 0
    {
      assert chunks[i..][1..] == chunks[i + 1..];
      match chunks[i]
      case Done(resp) =>
        response := Some(resp);
      case Progress =>
        i := i + 1;
      case OtherFailure(m) =>
        return Raised(OtherError(m));
      case HttpFailure(s) =>
        if Retriable(s) {
          if retry > 10 {
            return Raised(HttpError(s));
          }
          retry := retry + 1;
          i := i + 1;
        } else {
          return Raised(HttpError(s));
        }
    }
    return Uploaded(response.value);
  }

  // ---------------------------------------------------------------------------
  // The uploader

  class YouTubeUploader {
    var videoFile: string
    var title: string
    var descriptionFile: Option<string>
    var tags: seq<string>
    var category: string
    var privacy: string

    /** `__init__` without the authentication it performs. */
    constructor(videoFile: string, title: Option<string>, descriptionFile: Option<string>,
                tags: Option<seq<string>>, category: string, privacy: string)
      ensures this.videoFile == videoFile && this.descriptionFile == descriptionFile
      ensures this.title == ChooseTitle(title, videoFile)
      ensures this.tags == ChooseTags(tags)
      ensures this.category == category && this.privacy == privacy
    {
      this.videoFile := videoFile;
      this.title := ChooseTitle(title, videoFile);
      this.descriptionFile := descriptionFile;
      this.tags := ChooseTags(tags);
      this.category := category;
      this.privacy := privacy;
    }

    /** The request `upload_video` sends for a description `description`. */
    function RequestFor(description: string): (q: Request)
      reads this
      ensures q.part == "snippet,status"
      ensures q.body.snippet.title == title && q.body.snippet.tags == tags
      ensures q.body.snippet.categoryId == category && q.body.snippet.description == description
      ensures q.body.status.privacyStatus == privacy && !q.body.status.selfDeclaredMadeForKids
    {
      Request(Join(BodyKeys, ","), Body(Snippet(title, description, tags, category), Status(privacy, false)))
    }

    /**
     * `upload_video`: `videoFound` is whether the video file exists; the description
     * file's existence and text, the year and the chunk outcomes are parameters. A
     * missing video raises before any request is built.
     */
    method UploadVideo(videoFound: bool, descriptionFound: bool, descriptionText: string, year: int,
                       chunks: seq<Chunk>) returns (request: Option<Request>, r: Upload)
      requires Outcomes(chunks)
      ensures !videoFound ==> request.None? && r == Raised(FileNotFound(videoFile))
      ensures videoFound ==>
                && request == Some(RequestFor(Description(descriptionFile, descriptionFound, descriptionText, year)))
                && r == UploadFrom(chunks, 0)
    {
      if !videoFound {
        return None, Raised(FileNotFound(videoFile));
      }
      var q := RequestFor(Description(descriptionFile, descriptionFound, descriptionText, year));
      request := Some(q);
      r := ResumableUpload(chunks);
    }
  }
}
