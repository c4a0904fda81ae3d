/**
 * The arithmetic of `SakuraVideoGenerator._prepare_video_segments` and the asset
 * inventory of `_get_video_files` / `_get_music_files` / `_get_sfx_files`:
 * cutting the content time into slots, assigning a source file to each slot,
 * choosing the time range inside the file, and conforming the frame to 3840x2160.
 * Random draws and the probed clips are parameters.
 */
module SegmentPlanning {
  import opened Wrappers
  import opened Strings
  import opened Filtering

  // ---------------------------------------------------------------------------
  // Constants of the generator

  const CanvasWidth: int := 3840
  const CanvasHeight: int := 2160
  /** Seconds reserved for the title card and the ending card together. */
  const Reserved: real := 10.0
  const MinSlot: real := 10.0
  const MaxSlot: real := 15.0
  /** Fade-in and fade-out applied to every segment, in seconds. */
  const SegmentFade: real := 0.5

  const VideoPatterns: seq<string> := [".mp4", ".mov", ".avi", ".mkv"]
  const AudioPatterns: seq<string> := [".mp3", ".wav", ".m4a", ".ogg"]

  // ---------------------------------------------------------------------------
  // Asset inventory

  /**
   * A resource directory: Missing when it does not exist, otherwise the names of
   * its entries in listing order.
   */
  datatype Directory = Missing | Listing(names: seq<string>)

  /** Whether glob's pattern `*<ext>` matches a name (glob's `*` skips hidden names). */
  predicate GlobMatches(name: string, ext: string) {
    EndsWith(name, ext) && !StartsWith(name, ".")
  }

  /** The names one `glob` for the extension `ext` collects, in listing order. */
  function Matching(names: seq<string>, ext: string): seq<string>
  {
    if names == [] then []
    else (if GlobMatches(names[0], ext) then [names[0]] else []) + Matching(names[1..], ext)
  }

  /** A name is collected exactly when the directory lists it and the pattern matches it. */
  lemma {:induction false} MatchingMembers(names: seq<string>, ext: string, f: string)
    ensures f in Matching(names, ext) <==> f in names && GlobMatches(f, ext)
  {
    if names != [] {
      MatchingMembers(names[1..], ext, f);
      assert names == [names[0]] + names[1..];
    }
  }

  /** The files one `glob` per pattern collects, pattern by pattern. */
  function Inventory(dir: Directory, patterns: seq<string>): seq<string>
  {
    if dir.Missing? || patterns == [] then []
    else Inventory(dir, patterns[..|patterns| - 1]) + Matching(dir.names, patterns[|patterns| - 1])
  }

  /** A file is in the inventory exactly when the directory lists it and some pattern matches it. */
  lemma {:induction false} InventoryMembers(dir: Directory, patterns: seq<string>, f: string)
    ensures f in Inventory(dir, patterns) <==>
              dir.Listing? && f in dir.names && exists e :: e in patterns && GlobMatches(f, e)
  {
    if dir.Listing? && patterns != [] {
      var init := patterns[..|patterns| - 1];
      var last := patterns[|patterns| - 1];
      InventoryMembers(dir, init, f);
      MatchingMembers(dir.names, last, f);
      assert patterns == init + [last];
      assert forall e :: e in patterns <==> e in init || e == last;
    }
  }

  /** One `glob` over the listing: the names that match one pattern, in listing order. */
  method GlobNames(names: seq<string>, ext: string) returns (found: seq<string>)
    ensures found == Matching(names, ext)
  {
    found := [];
    var j := 0;
    while j < |names|
      invariant 0 <= j <= |names|
      invariant found + Matching(names[j..], ext) == Matching(names, ext)
    {
      assert names[j..][1..] == names[j + 1..];
      if GlobMatches(names[j], ext) {
        found := found + [names[j]];
      }
      j := j + 1;
    }
  }

  /** The collecting loop of `_get_*_files`: extend the result by one glob per pattern. */
  method ListFiles(dir: Directory, patterns: seq<string>) returns (files: seq<string>)
    ensures files == Inventory(dir, patterns)
  {
    files := [];
    if dir.Missing? {
      return;
    }
    var i := 0;
    while i < |patterns|
      invariant 0 <= i <= |patterns|
      invariant files == Inventory(dir, patterns[..i])
    {
      var found := GlobNames(dir.names, patterns[i]);
      assert patterns[..i + 1][..i] == patterns[..i];
      assert patterns[..i + 1][i] == patterns[i];
      files := files + found;
      i := i + 1;
    }
    assert patterns[..i] == patterns;
  }

  predicate Distinct<T(==)>(s: seq<T>) {
    forall i, j :: 0 <= i < j < |s| ==> s[i] != s[j]
  }

  lemma {:induction false} MatchingDistinct(names: seq<string>, ext: string)
    requires Distinct(names)
    ensures Distinct(Matching(names, ext))
  {
    if names != [] {
      var rest := Matching(names[1..], ext);
      assert Distinct(names[1..]) by {
        forall i, j | 0 <= i < j < |names[1..]| ensures names[1..][i] != names[1..][j] {
          assert names[1..][i] == names[i + 1] && names[1..][j] == names[j + 1];
        }
      }
      MatchingDistinct(names[1..], ext);
      if GlobMatches(names[0], ext) {
        assert names[0] !in names[1..] by {
          forall j | 0 <= j < |names[1..]| ensures names[1..][j] != names[0] {
            assert names[1..][j] == names[j + 1];
          }
        }
        MatchingMembers(names[1..], ext, names[0]);
        assert names[0] !in rest;
        DistinctCons(names[0], rest);
      }
    }
  }

  lemma DistinctCons<T>(x: T, s: seq<T>)
    requires Distinct(s) && x !in s
    ensures Distinct([x] + s)
  {
    var r := [x] + s;
    forall i, j | 0 <= i < j < |r| ensures r[i] != r[j] {
      assert r[j] == s[j - 1];
      if i > 0 { assert r[i] == s[i - 1]; }
    }
  }

  /**
   * A directory names each entry once, and no name ends in two different patterns,
   * so the inventory has no duplicates.
   */
  lemma {:induction false} InventoryDistinct(dir: Directory, patterns: seq<string>)
    requires dir.Listing? ==> Distinct(dir.names)
    requires forall i, j :: 0 <= i < j < |patterns| ==> !EndsWith(patterns[i], patterns[j]) && !EndsWith(patterns[j], patterns[i])
    ensures Distinct(Inventory(dir, patterns))
  {
    if dir.Listing? && patterns != [] {
      var init := patterns[..|patterns| - 1];
      var last := patterns[|patterns| - 1];
      InventoryDistinct(dir, init);
      MatchingDistinct(dir.names, last);
      var a := Inventory(dir, init);
      var b := Matching(dir.names, last);
      var r := a + b;
      forall i, j | 0 <= i < j < |r| ensures r[i] != r[j] {
        if i < |a| && j >= |a| {
          var f := r[j];
          assert f in b;
          MatchingMembers(dir.names, last, f);
          if f == r[i] {
            assert f in a;
            InventoryMembers(dir, init, f);
            var e :| e in init && GlobMatches(f, e);
            var k :| 0 <= k < |init| && init[k] == e;
            SuffixesNest(f, e, last);
          }
        } else if i >= |a| {
          assert r[i] == b[i - |a|] && r[j] == b[j - |a|];
        }
      }
    }
  }

  lemma SuffixesNest(f: string, e: string, g: string)
    requires EndsWith(f, e) && EndsWith(f, g)
    ensures EndsWith(e, g) || EndsWith(g, e)
  {
    if |g| <= |e| {
      assert e[|e| - |g|..] == f[|f| - |g|..];
    } else {
      assert g[|g| - |e|..] == f[|f| - |e|..];
    }
  }

  // ---------------------------------------------------------------------------
  // Duration planner

  /** Each draw of `random.uniform(10.0, 15.0)` lies in [10, 15]. */
  predicate ValidDraws(draws: seq<real>) {
    forall i :: 0 <= i < |draws| ==> MinSlot <= draws[i] <= MaxSlot
  }

  /** Enough draws for the loop: every iteration but the last consumes at least 10 s. */
  predicate EnoughDraws(content: real, draws: seq<real>) {
    content <= MinSlot * |draws| as real
  }

  function Min(a: real, b: real): real { if a <= b then a else b }

  /**
   * The `while remaining_duration > 0` loop: each slot is the next draw, cut down to
   * what remains of the content time.
   */
  function Plan(remaining: real, draws: seq<real>): (r: seq<real>)
    requires ValidDraws(draws) && EnoughDraws(remaining, draws)
    ensures |r| <= |draws|
    decreases |draws|
  {
    if remaining <= 0.0 then []
    else
      var d := Min(draws[0], remaining);
      [d] + Plan(remaining - d, draws[1..])
  }

  /** The planning loop of `_prepare_video_segments`, appending one slot per iteration. */
  method PlanDurations(content: real, draws: seq<real>) returns (durations: seq<real>)
    requires ValidDraws(draws) && EnoughDraws(content, draws)
    ensures durations == Plan(content, draws)
  {
    durations := [];
    var remaining := content;
    var i := 0;
    while remaining > 0.0
      invariant 0 <= i <= |draws|
      invariant ValidDraws(draws[i..]) && EnoughDraws(remaining, draws[i..])
      invariant durations + Plan(remaining, draws[i..]) == Plan(content, draws)
      decreases |draws| - i
    {
      var d := Min(draws[i], remaining);
      assert draws[i..][1..] == draws[i + 1..];
      durations := durations + [d];
      remaining := remaining - d;
      i := i + 1;
    }
  }

  function Total(ds: seq<real>): real {
    if ds == [] then 0.0 else ds[0] + Total(ds[1..])
  }

  /** Content time: the video length minus the 10 s of title and ending. */
  function Content(length: int): real {
    length as real - Reserved
  }

  /** The slots fill the content time exactly; no content time gives no slot at all. */
  lemma {:induction false} PlanSum(remaining: real, draws: seq<real>)
    requires ValidDraws(draws) && EnoughDraws(remaining, draws)
    ensures remaining <= 0.0 <==> Plan(remaining, draws) == []
    ensures remaining > 0.0 ==> Total(Plan(remaining, draws)) == remaining
    decreases |draws|
  {
    if remaining > 0.0 {
      var d := Min(draws[0], remaining);
      PlanSum(remaining - d, draws[1..]);
    }
  }

  lemma {:induction false} PlanSlotAt(remaining: real, draws: seq<real>, i: nat)
    requires ValidDraws(draws) && EnoughDraws(remaining, draws)
    requires i < |Plan(remaining, draws)|
    ensures 0.0 < Plan(remaining, draws)[i] <= MaxSlot && Plan(remaining, draws)[i] <= draws[i]
    ensures i < |Plan(remaining, draws)| - 1 ==> MinSlot <= Plan(remaining, draws)[i] && Plan(remaining, draws)[i] == draws[i]
    decreases |draws|
  {
    var d := Min(draws[0], remaining);
    var p := Plan(remaining, draws);
    var q := Plan(remaining - d, draws[1..]);
    assert p == [d] + q;
    if i == 0 {
      if |p| > 1 {
        PlanSum(remaining - d, draws[1..]);
        assert d == draws[0];
      }
    } else {
      PlanSlotAt(remaining - d, draws[1..], i - 1);
      assert p[i] == q[i - 1] && draws[i] == draws[1..][i - 1];
    }
  }

  /**
   * Every slot lasts more than 0 and at most 15 s, every slot but the last at least
   * 10 s, and every slot but the last is exactly its draw.
   */
  lemma PlanSlots(remaining: real, draws: seq<real>)
    requires ValidDraws(draws) && EnoughDraws(remaining, draws)
    ensures |Plan(remaining, draws)| <= |draws|
    ensures forall i :: 0 <= i < |Plan(remaining, draws)| ==>
              0.0 < Plan(remaining, draws)[i] <= MaxSlot && Plan(remaining, draws)[i] <= draws[i]
    ensures forall i :: 0 <= i < |Plan(remaining, draws)| - 1 ==>
              MinSlot <= Plan(remaining, draws)[i] && Plan(remaining, draws)[i] == draws[i]
  {
    forall i | 0 <= i < |Plan(remaining, draws)|
      ensures 0.0 < Plan(remaining, draws)[i] <= MaxSlot && Plan(remaining, draws)[i] <= draws[i]
      ensures i < |Plan(remaining, draws)| - 1 ==> MinSlot <= Plan(remaining, draws)[i] && Plan(remaining, draws)[i] == draws[i]
    {
      PlanSlotAt(remaining, draws, i);
    }
  }

  /**
   * With content time C > 0 the number of slots k satisfies 15k >= C and 10(k-1) < C,
   * that is ceil(C/15) <= k <= ceil(C/10).
   */
  lemma {:induction false} PlanCount(remaining: real, draws: seq<real>)
    requires ValidDraws(draws) && EnoughDraws(remaining, draws)
    requires remaining > 0.0
    ensures MaxSlot * |Plan(remaining, draws)| as real >= remaining
    ensures MinSlot * (|Plan(remaining, draws)| - 1) as real < remaining
    decreases |draws|
  {
    var d := Min(draws[0], remaining);
    if remaining - d > 0.0 {
      PlanCount(remaining - d, draws[1..]);
    }
  }

  // ---------------------------------------------------------------------------
  // Asset assignment

  /** The result of `random.sample(range(n), n)`: every index below n exactly once. */
  predicate IsIndexPermutation(sample: seq<nat>, n: nat) {
    |sample| == n && Distinct(sample) && forall i :: 0 <= i < |sample| ==> sample[i] < n
  }

  /** Each `random.choice(video_files)` is an index into the file list. */
  predicate ValidChoices(choices: seq<nat>, n: nat) {
    forall i :: 0 <= i < |choices| ==> choices[i] < n
  }

  function MinNat(a: nat, b: nat): nat { if a <= b then a else b }

  /**
   * `random.sample(video_files, min(n, k))` followed by `random.choice` until there are
   * k files: the sample is the first min(n, k) entries of a random permutation.
   */
  function Assign(files: seq<string>, sample: seq<nat>, choices: seq<nat>, k: nat): seq<string>
    requires IsIndexPermutation(sample, |files|) && ValidChoices(choices, |files|)
    requires |choices| >= k - MinNat(|files|, k)
  {
    var m := MinNat(|files|, k);
    seq(m, i requires 0 <= i < m => files[sample[i]])
      + seq(k - m, j requires 0 <= j < k - m => files[choices[j]])
  }

  /** The sample, then one `random.choice` appended per missing slot. */
  method SelectFiles(files: seq<string>, sample: seq<nat>, choices: seq<nat>, k: nat) returns (selected: seq<string>)
    requires IsIndexPermutation(sample, |files|) && ValidChoices(choices, |files|)
    requires |choices| >= k - MinNat(|files|, k)
    ensures selected == Assign(files, sample, choices, k)
  {
    var m := MinNat(|files|, k);
    selected := seq(m, q requires 0 <= q < m => files[sample[q]]);
    var c := 0;
    while |selected| < k
      invariant 0 <= c <= k - m && |selected| == m + c
      invariant selected == seq(m, q requires 0 <= q < m => files[sample[q]])
                             + seq(c, q requires 0 <= q < c => files[choices[q]])
    {
      selected := selected + [files[choices[c]]];
      c := c + 1;
    }
  }

  /**
   * One file per slot, all from the inventory, and the first min(n, k) of them taken
   * at distinct positions: with distinct file names and k <= n no file repeats.
   */
  lemma AssignProperties(files: seq<string>, sample: seq<nat>, choices: seq<nat>, k: nat)
    requires IsIndexPermutation(sample, |files|) && ValidChoices(choices, |files|)
    requires |choices| >= k - MinNat(|files|, k)
    ensures |Assign(files, sample, choices, k)| == k
    ensures forall i :: 0 <= i < k ==> Assign(files, sample, choices, k)[i] in files
    ensures Distinct(files) ==> Distinct(Assign(files, sample, choices, k)[..MinNat(|files|, k)])
    ensures Distinct(files) && k <= |files| ==> Distinct(Assign(files, sample, choices, k))
  {
    var sel := Assign(files, sample, choices, k);
    var m := MinNat(|files|, k);
    forall i | 0 <= i < k ensures sel[i] in files {
      if i < m { assert sel[i] == files[sample[i]]; } else { assert sel[i] == files[choices[i - m]]; }
    }
    if Distinct(files) {
      forall i, j | 0 <= i < j < m ensures sel[..m][i] != sel[..m][j] {
        assert sel[i] == files[sample[i]] && sel[j] == files[sample[j]];
      }
      if k <= |files| {
        assert sel[..m] == sel;
      }
    }
  }

  lemma {:induction false} DistinctCard<T>(s: seq<T>)
    requires Distinct(s)
    ensures |set x | x in s| == |s|
  {
    if s != [] {
      var t := s[..|s| - 1];
      DistinctCard(t);
      assert (set x | x in s) == (set x | x in t) + {s[|s| - 1]};
      assert s[|s| - 1] !in t;
    }
  }

  lemma {:induction false} CardBound<T>(s: seq<T>)
    ensures |set x | x in s| <= |s|
  {
    if s != [] {
      var t := s[..|s| - 1];
      CardBound(t);
      assert (set x | x in s) == (set x | x in t) + {s[|s| - 1]};
    }
  }

  /** With more slots than files some file fills two slots. */
  lemma AssignRepeats(files: seq<string>, sample: seq<nat>, choices: seq<nat>, k: nat)
    requires IsIndexPermutation(sample, |files|) && ValidChoices(choices, |files|)
    requires |choices| >= k - MinNat(|files|, k)
    requires k > |files|
    ensures !Distinct(Assign(files, sample, choices, k))
  {
    var sel := Assign(files, sample, choices, k);
    AssignProperties(files, sample, choices, k);
    CardBound(files);
    var a := set x | x in sel;
    var b := set x | x in files;
    assert a <= b;
    assert b == a + (b - a);
    assert |a| < |sel|;
    SmallSetRepeats(sel);
  }

  lemma SmallSetRepeats<T>(s: seq<T>)
    requires |set x | x in s| < |s|
    ensures !Distinct(s)
  {
    if Distinct(s) {
      DistinctCard(s);
    }
  }

  // ---------------------------------------------------------------------------
  // Time range inside a source clip

  /** A source clip as probed: its length in seconds and its frame size. */
  datatype Clip = Clip(duration: real, width: int, height: int)

  /** Either the clip looped out to a length, or the sub-range [start, end] of it. */
  datatype TimeRange = Looped(length: real) | Sub(start: real, end: real)

  function RangeLength(r: TimeRange): real {
    match r
    case Looped(length) => length
    case Sub(start, end) => end - start
  }

  /**
   * Loop a clip shorter than the slot; otherwise start at `u * max(0, D - d)`, where
   * `u` is the draw of `random.random()` behind `random.uniform(0, max_start)`.
   */
  function SelectRange(sourceDuration: real, d: real, u: real): (r: TimeRange)
    requires 0.0 <= u <= 1.0
    ensures RangeLength(r) == d
    ensures r.Looped? <==> sourceDuration < d
    ensures r.Sub? ==> 0.0 <= r.start && r.end <= sourceDuration
  {
    if sourceDuration < d then Looped(d)
    else
      var maxStart := if sourceDuration - d > 0.0 then sourceDuration - d else 0.0;
      var start := Scale(u, maxStart);
      Sub(start, start + d)
  }

  /** `random.uniform(0, m)` as `m * random()`, for the draw `u` of `random()`. */
  function Scale(u: real, m: real): (r: real)
    requires 0.0 <= u <= 1.0 && 0.0 <= m
    ensures 0.0 <= r <= m
  {
    assert (1.0 - u) * m >= 0.0;
    u * m
  }

  // ---------------------------------------------------------------------------
  // Conforming the frame

  /**
   * How the frame is conformed: left as it is (already 3840x2160), scaled to height
   * 2160 with width 3840 exactly, scaled and cropped at x1, or scaled and padded at
   * x_offset.
   */
  datatype Framing = Native | Scaled | Cropped(x1: int) | Padded(xOffset: int)

  /**
   * The crop/pad decision; `scaledWidth` is the width `clip.resize(height=2160)`
   * produced. In the program the `Native` case never arises: `clip.size` is a list and
   * `DEFAULT_RESOLUTION` a tuple, which never compare equal, so every clip is resized.
   * A clip that is already 3840x2160 resizes to width 3840 (`Scaled`), so the frame
   * size is the same either way.
   */
  function Conform(c: Clip, scaledWidth: nat): Framing
  {
    if c.width == CanvasWidth && c.height == CanvasHeight then Native
    else if scaledWidth > CanvasWidth then Cropped(scaledWidth / 2 - CanvasWidth / 2)
    else if scaledWidth < CanvasWidth then Padded((CanvasWidth - scaledWidth) / 2)
    else Scaled
  }

  /** The frame size the conforming steps leave, computed from the operations themselves. */
  function FramedSize(c: Clip, scaledWidth: nat, f: Framing): (int, int)
  {
    match f
    case Native => (c.width, c.height)
    case Scaled => (scaledWidth, CanvasHeight)
    case Cropped(x1) => ((x1 + CanvasWidth) - x1, CanvasHeight - 0)
    case Padded(_) => (CanvasWidth, CanvasHeight)
  }

  /**
   * The crop window lies inside the scaled frame and is centred to within one pixel;
   * the padded frame lies inside the canvas and is centred to within one pixel; the
   * result is 3840x2160 in every case.
   */
  lemma ConformBounds(c: Clip, scaledWidth: nat)
    ensures FramedSize(c, scaledWidth, Conform(c, scaledWidth)) == (CanvasWidth, CanvasHeight)
    ensures Conform(c, scaledWidth).Cropped? ==>
              var x1 := Conform(c, scaledWidth).x1;
              scaledWidth > CanvasWidth && 0 <= x1 && x1 + CanvasWidth <= scaledWidth
              && 0 <= (scaledWidth - (x1 + CanvasWidth)) - x1 <= 1
    ensures Conform(c, scaledWidth).Padded? ==>
              var x := Conform(c, scaledWidth).xOffset;
              scaledWidth < CanvasWidth && 0 <= x && x + scaledWidth <= CanvasWidth
              && 0 <= (CanvasWidth - (x + scaledWidth)) - x <= 1
  {
  }

  // ---------------------------------------------------------------------------
  // Segments

  /** What opening a slot's file gives: an exception, or the clip and its scaled width. */
  datatype Load = Failed | Opened(clip: Clip, scaledWidth: nat)

  /** One prepared segment: its file, time range, framing, frame size and fades. */
  datatype Segment = Segment(file: string, duration: real, range: TimeRange, framing: Framing,
                             width: int, height: int, fadeIn: real, fadeOut: real)

  /** Draws of `random.random()` for the start offsets. */
  predicate ValidFractions(us: seq<real>) {
    forall i :: 0 <= i < |us| ==> 0.0 <= us[i] <= 1.0
  }

  /** The body of the `try` for one slot; a failed load drops the slot. */
  function ProcessSlot(file: string, d: real, load: Load, u: real): (r: Option<Segment>)
    requires 0.0 <= u <= 1.0
  {
    match load
    case Failed => None
    case Opened(c, w) =>
      var f := Conform(c, w);
      var size := FramedSize(c, w, f);
      Some(Segment(file, d, SelectRange(c.duration, d, u), f, size.0, size.1, SegmentFade, SegmentFade))
  }

  /** A surviving segment lasts its planned time and fills the canvas. */
  lemma ProcessSlotShape(file: string, d: real, load: Load, u: real)
    requires 0.0 <= u <= 1.0
    ensures ProcessSlot(file, d, load, u).None? <==> load.Failed?
    ensures ProcessSlot(file, d, load, u).Some? ==>
              var s := ProcessSlot(file, d, load, u).value;
              s.file == file && s.duration == d && RangeLength(s.range) == d
              && s.width == CanvasWidth && s.height == CanvasHeight
              && s.fadeIn == SegmentFade && s.fadeOut == SegmentFade
  {
    if load.Opened? {
      ConformBounds(load.clip, load.scaledWidth);
    }
  }

  /** The outcome of every slot, in slot order (the `zip` of files and durations). */
  function SlotResults(files: seq<string>, ds: seq<real>, loads: seq<Load>, us: seq<real>): (rs: seq<Option<Segment>>)
    requires |files| == |ds| && |loads| >= |ds| && |us| >= |ds| && ValidFractions(us)
    ensures |rs| == |ds|
  {
    seq(|ds|, i requires 0 <= i < |ds| => ProcessSlot(files[i], ds[i], loads[i], us[i]))
  }

  /** The `zip` loop: process slot by slot, appending the segments whose file opened. */
  method OpenSlots(files: seq<string>, ds: seq<real>, loads: seq<Load>, us: seq<real>) returns (segments: seq<Segment>)
    requires |files| == |ds| && |loads| >= |ds| && |us| >= |ds| && ValidFractions(us)
    ensures segments == Present(SlotResults(files, ds, loads, us))
  {
    var results := SlotResults(files, ds, loads, us);
    segments := [];
    var s := 0;
    while s < |ds|
      invariant 0 <= s <= |ds|
      invariant segments == Present(results[..s])
    {
      assert results[..s + 1][..s] == results[..s];
      var outcome := ProcessSlot(files[s], ds[s], loads[s], us[s]);
      if outcome.Some? {
        segments := segments + [outcome.value];
      }
      s := s + 1;
    }
    assert results[..|ds|] == results;
  }
}
