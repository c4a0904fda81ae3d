/**
 * `SakuraSoundDownloader`: which of a track's download links is fetched, the file
 * name it is saved under, and the batch download that keeps the paths that worked.
 * Whether the HTTP request and the file write succeed is a parameter.
 */
module SoundDownload {
  import opened Wrappers
  import opened Strings
  import opened Paths
  import opened OrderedDict
  import opened Filtering
  import opened Bgmer

  /** The characters `_sanitize_filename` replaces by '_'. */
  const InvalidChars: string := "<>:\"/\\|?*"
  const MaxNameLength: nat := 100

  // ---------------------------------------------------------------------------
  // File names

  /** Every character of `cs` in `s` replaced by '_'. */
  function Replaced(s: string, cs: string): (r: string)
    ensures |r| == |s|
  {
    seq(|s|, i requires 0 <= i < |s| => if s[i] in cs then '_' else s[i])
  }

  /** What `_sanitize_filename` returns: invalid characters replaced, then cut to 100. */
  function Sanitized(s: string): string {
    var t := Replaced(s, InvalidChars);
    if |t| > MaxNameLength then t[..MaxNameLength] else t
  }

  /**
   * A sanitized name holds no invalid character, is as long as its input up to 100
   * characters, and keeps every other character in its place.
   */
  lemma SanitizedProperties(s: string)
    ensures |Sanitized(s)| == if |s| > MaxNameLength then MaxNameLength else |s|
    ensures forall i :: 0 <= i < |Sanitized(s)| ==> Sanitized(s)[i] !in InvalidChars
    ensures forall i :: 0 <= i < |Sanitized(s)| ==>
              Sanitized(s)[i] == if s[i] in InvalidChars then '_' else s[i]
  {
    assert '_' !in InvalidChars;
  }

  /** Sanitizing a sanitized name changes nothing. */
  lemma SanitizedIdempotent(s: string)
    ensures Sanitized(Sanitized(s)) == Sanitized(s)
  {
    var t := Sanitized(s);
    SanitizedProperties(s);
    SanitizedProperties(t);
    assert Sanitized(t) == t;
  }

  /** The file-name suffix: "_long" only when long is preferred and present. */
  function LinkSuffix(d: Links, preferLong: bool): string {
    if preferLong && Has(d, "long") then "_long"
    else if Has(d, "short") then "_short"
    else ""
  }

  /** The extension from the link's lower-cased ending, ".mp3" when there is none of the three. */
  function Extension(link: string): (e: string)
    ensures e in {".mp3", ".wav", ".ogg"}
  {
    if EndsWith(Lower(link), ".mp3") then ".mp3"
    else if EndsWith(Lower(link), ".wav") then ".wav"
    else if EndsWith(Lower(link), ".ogg") then ".ogg"
    else ".mp3"
  }

  /** The extension is the link's own lowered ending, or ".mp3" by default. */
  lemma ExtensionFromLink(link: string)
    ensures EndsWith(Lower(link), Extension(link)) || Extension(link) == ".mp3"
    ensures Extension(link) == ".mp3" <==>
              EndsWith(Lower(link), ".mp3") || !(EndsWith(Lower(link), ".wav") || EndsWith(Lower(link), ".ogg"))
  {
  }

  /** An extension of the link's own is kept, whatever its letter case. */
  lemma ExtensionOfLink(link: string, e: string)
    requires e in {".mp3", ".wav", ".ogg"} && EndsWith(Lower(link), e)
    ensures Extension(link) == e
  {
    var l := Lower(link);
    assert forall a: string, b: string :: |a| == |b| == 4 && EndsWith(l, a) && EndsWith(l, b) ==> a == b;
  }

  function FileName(title: string, d: Links, preferLong: bool, link: string): string {
    Sanitized(title) + LinkSuffix(d, preferLong) + Extension(link)
  }

  /** A file name is at most 100 + 6 + 4 characters, never empty, and holds no '/'. */
  lemma FileNameBounds(title: string, d: Links, preferLong: bool, link: string)
    ensures 4 <= |FileName(title, d, preferLong, link)| <= MaxNameLength + 6 + 4
    ensures '/' !in FileName(title, d, preferLong, link)
  {
    SanitizedProperties(title);
    var sa := Sanitized(title);
    var su := LinkSuffix(d, preferLong);
    var e := Extension(link);
    assert '/' !in sa by {
      forall i | 0 <= i < |sa| ensures sa[i] != '/' {
        assert sa[i] !in InvalidChars;
      }
    }
    assert su == "_long" || su == "_short" || su == "";
    assert '/' !in su && '/' !in e && |e| == 4;
    AbsentFromJoin(sa, su, e, '/');
  }

  lemma AbsentFromJoin(a: string, b: string, c: string, x: char)
    requires x !in a && x !in b && x !in c
    ensures x !in a + b + c
  {
    var n := a + b + c;
    forall i | 0 <= i < |n| ensures n[i] != x {
      if i < |a| {
        assert n[i] == a[i];
      } else if i < |a| + |b| {
        assert n[i] == b[i - |a|];
      } else {
        assert n[i] == c[i - |a| - |b|];
      }
    }
  }

  // ---------------------------------------------------------------------------
  // Link selection

  /** Python's truthiness test on a link: the empty string counts as no link. */
  function Truthy(link: string): (r: Option<string>)
    ensures r.Some? <==> link != ""
    ensures r.Some? ==> r.value == link
  {
    if link == "" then None else Some(link)
  }

  /** The link `download_music` uses; None when there are no links or the chosen one is empty. */
  function ChooseLink(links: Option<Links>, preferLong: bool): (r: Option<string>)
    ensures links.None? || links.value == [] ==> r.None?
    ensures r.Some? ==> r.value != ""
    ensures r.Some? ==> links.Some? && exists i :: 0 <= i < |links.value| && links.value[i].1 == r.value
  {
    if links.None? || links.value == [] then None
    else
      var d := links.value;
      var link :=
        if preferLong && Has(d, "long") then Get(d, "long")
        else if Has(d, "short") then Get(d, "short")
        else if Has(d, "default") then Get(d, "default")
        else d[0].1;
      Truthy(link)
  }

  /** The keys tried in order: "long" (only when preferred), then "short", then "default". */
  function Priority(preferLong: bool): seq<string> {
    (if preferLong then ["long"] else []) + ["short", "default"]
  }

  /**
   * The link used is that of the first key in priority order which is present, and the
   * first value of the dict when none of them is.
   */
  lemma LinkPriority(d: Links, preferLong: bool)
    requires d != []
    ensures forall j :: 0 <= j < |Priority(preferLong)| && Has(d, Priority(preferLong)[j])
                        && (forall q :: 0 <= q < j ==> !Has(d, Priority(preferLong)[q])) ==>
              ChooseLink(Some(d), preferLong) == Truthy(Get(d, Priority(preferLong)[j]))
    ensures (forall j :: 0 <= j < |Priority(preferLong)| ==> !Has(d, Priority(preferLong)[j])) ==>
              ChooseLink(Some(d), preferLong) == Truthy(d[0].1)
  {
    var p := Priority(preferLong);
    var r := ChooseLink(Some(d), preferLong);
    if preferLong {
      assert p == ["long", "short", "default"];
    } else {
      assert p == ["short", "default"];
    }
    forall j | 0 <= j < |p| && Has(d, p[j]) && (forall q :: 0 <= q < j ==> !Has(d, p[q]))
      ensures r == Truthy(Get(d, p[j]))
    {
      if preferLong && j > 0 {
        assert !Has(d, p[0]);
      }
      if j == |p| - 1 {
        assert !Has(d, p[j - 1]);
      }
    }
    if forall j :: 0 <= j < |p| ==> !Has(d, p[j]) {
      assert !Has(d, p[|p| - 1]) && !Has(d, p[|p| - 2]);
      if preferLong {
        assert !Has(d, p[0]);
      }
    }
  }

  /** The suffix names the link that was taken: "_long" the long one, "_short" the short one. */
  lemma SuffixNamesLink(d: Links, preferLong: bool)
    requires d != []
    ensures LinkSuffix(d, preferLong) == "_long" ==> ChooseLink(Some(d), preferLong) == Truthy(Get(d, "long"))
    ensures LinkSuffix(d, preferLong) == "_short" ==> ChooseLink(Some(d), preferLong) == Truthy(Get(d, "short"))
    ensures LinkSuffix(d, preferLong) == "" ==> !Has(d, "short") && !(preferLong && Has(d, "long"))
  {
  }

  /** Without a preference for long, a dict holding only the long link uses it, with no suffix. */
  lemma OnlyLongWithoutPreference(u: string)
    requires u != ""
    ensures ChooseLink(Some([("long", u)]), false) == Some(u)
    ensures LinkSuffix([("long", u)], false) == ""
  {
    assert Keys<string, string>([("long", u)]) == ["long"];
  }

  // ---------------------------------------------------------------------------
  // Downloads

  /**
   * What `download_music` returns: None without a usable link or when the request or
   * the write fails (`ok` false), otherwise the path of the file in the directory.
   */
  function Download(dir: string, info: MusicInfo, preferLong: bool, ok: bool): (r: Option<string>)
    ensures r.Some? ==> r.value != ""
    ensures r.Some? <==> ok && ChooseLink(info.downloadLinks, preferLong).Some?
  {
    var link := ChooseLink(info.downloadLinks, preferLong);
    if link.None? || !ok then None
    else
      var name := FileName(info.title, info.downloadLinks.value, preferLong, link.value);
      FileNameBounds(info.title, info.downloadLinks.value, preferLong, link.value);
      Some(PathJoin(dir, name))
  }

  /** The result of every attempt of a batch, in order. */
  function Attempts(dir: string, list: seq<MusicInfo>, preferLong: bool, oks: seq<bool>): (r: seq<Option<string>>)
    requires |oks| >= |list|
    ensures |r| == |list|
    ensures forall i :: 0 <= i < |list| ==> r[i] == Download(dir, list[i], preferLong, oks[i])
  {
    seq(|list|, i requires 0 <= i < |list| => Download(dir, list[i], preferLong, oks[i]))
  }

  /** The downloaded file lies directly in the download directory, under its built name. */
  lemma DownloadPath(dir: string, info: MusicInfo, preferLong: bool, ok: bool)
    requires Download(dir, info, preferLong, ok).Some?
    ensures var link := ChooseLink(info.downloadLinks, preferLong).value;
            Basename(Download(dir, info, preferLong, ok).value)
            == FileName(info.title, info.downloadLinks.value, preferLong, link)
  {
    var link := ChooseLink(info.downloadLinks, preferLong).value;
    var name := FileName(info.title, info.downloadLinks.value, preferLong, link);
    FileNameBounds(info.title, info.downloadLinks.value, preferLong, link);
    BasenameOfJoin(dir, name);
  }

  /**
   * A batch returns the paths of the attempts that worked, in input order and no more
   * of them than tracks; when every track has a usable link and every transfer works,
   * one path per track.
   */
  lemma BatchProperties(dir: string, list: seq<MusicInfo>, preferLong: bool, oks: seq<bool>)
    requires |oks| >= |list|
    ensures var files := Present(Attempts(dir, list, preferLong, oks));
            && |files| <= |list|
            && (forall f :: 0 <= f < |files| ==> files[f] != "")
            && (forall f :: 0 <= f < |files| ==>
                  exists i :: 0 <= i < |list| && Download(dir, list[i], preferLong, oks[i]) == Some(files[f]))
            && ((forall i :: 0 <= i < |list| ==> oks[i] && ChooseLink(list[i].downloadLinks, preferLong).Some?) ==>
                  |files| == |list|)
  {
    var rs := Attempts(dir, list, preferLong, oks);
    var files := Present(rs);
    PresentInOrder(rs);
    forall f | 0 <= f < |files|
      ensures files[f] != ""
      ensures exists i :: 0 <= i < |list| && Download(dir, list[i], preferLong, oks[i]) == Some(files[f])
    {
      var i := PresentSlots(rs)[f];
      assert rs[i] == Some(files[f]);
    }
    if forall i :: 0 <= i < |list| ==> oks[i] && ChooseLink(list[i].downloadLinks, preferLong).Some? {
      AllPresent(rs);
    }
  }

  // ---------------------------------------------------------------------------
  // The downloader

  class SakuraSoundDownloader {
    var downloadDir: string

    constructor(downloadDir: string)
      ensures this.downloadDir == downloadDir
    {
      this.downloadDir := downloadDir;
    }

    /** `_sanitize_filename`: one `replace` per invalid character, then the cut. */
    method SanitizeFilename(name: string) returns (filename: string)
      ensures filename == Sanitized(name)
    {
      filename := name;
      var k := 0;
      while k < |InvalidChars|
        invariant 0 <= k <= |InvalidChars|
        invariant filename == Replaced(name, InvalidChars[..k])
      {
        var c := InvalidChars[k];
        assert InvalidChars[..k + 1] == InvalidChars[..k] + [c];
        assert '_' != c;
        filename := ReplaceChar(filename, c, '_');
        k := k + 1;
      }
      assert InvalidChars[..k] == InvalidChars;
      if |filename| > MaxNameLength {
        filename := filename[..MaxNameLength];
      }
    }

    /** The link choice of `download_music` on a non-empty dict. */
    method SelectLink(d: Links, preferLong: bool) returns (link: string)
      requires d != []
      ensures Truthy(link) == ChooseLink(Some(d), preferLong)
    {
      if preferLong && Has(d, "long") {
        link := Get(d, "long");
      } else if Has(d, "short") {
        link := Get(d, "short");
      } else if Has(d, "default") {
        link := Get(d, "default");
      } else {
        link := d[0].1;
      }
    }

    /** The file name of `download_music`, built by appending the suffix and the extension. */
    method BuildFileName(title: string, d: Links, preferLong: bool, link: string) returns (filename: string)
      ensures filename == FileName(title, d, preferLong, link)
    {
      filename := SanitizeFilename(title);
      if preferLong && Has(d, "long") {
        filename := filename + "_long";
      } else if Has(d, "short") {
        filename := filename + "_short";
      }
      assert filename == Sanitized(title) + LinkSuffix(d, preferLong);
      var lower := Lower(link);
      if EndsWith(lower, ".mp3") {
        filename := filename + ".mp3";
      } else if EndsWith(lower, ".wav") {
        filename := filename + ".wav";
      } else if EndsWith(lower, ".ogg") {
        filename := filename + ".ogg";
      } else {
        filename := filename + ".mp3";
      }
    }

    /** `download_music`: choose the link, build the file name, and download. */
    method DownloadMusic(info: MusicInfo, preferLong: bool, ok: bool) returns (path: Option<string>)
      ensures path == Download(downloadDir, info, preferLong, ok)
    {
      if info.downloadLinks.None? || info.downloadLinks.value == [] {
        return None;
      }
      var d := info.downloadLinks.value;
      var link := SelectLink(d, preferLong);
      if link == "" {
        return None;
      }
      var filename := BuildFileName(info.title, d, preferLong, link);
      var filePath := PathJoin(downloadDir, filename);
      if !ok {
        return None;
      }
      return Some(filePath);
    }

    /** `download_all_music`: one attempt per track, keeping the truthy paths. */
    method DownloadAllMusic(list: seq<MusicInfo>, preferLong: bool, oks: seq<bool>) returns (files: seq<string>)
      requires |oks| >= |list|
      ensures files == Present(Attempts(downloadDir, list, preferLong, oks))
    {
      files := [];
      var i := 0;
      ghost var rs := Attempts(downloadDir, list, preferLong, oks);
      while i < |list|
        invariant 0 <= i <= |list|
        invariant files == Present(rs[..i])
      {
        var path := DownloadMusic(list[i], preferLong, oks[i]);
        assert path == rs[i];
        PresentStep(rs, i);
        if path.Some? && path.value != "" {
          files := files + [path.value];
        }
        i := i + 1;
      }
      assert rs[..i] == rs;
    }
  }
}
