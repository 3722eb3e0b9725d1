/** `Tracker::Camera`: the tables of engine modules and their lookups, the camera's
    settings and lifecycle (construct, set, `Initialize`, `Process`), the frame loop and the
    blob record file. Video capture, the keyboard and the tracking engine are inputs: the
    results of successive `grab` and `cvWaitKey` calls, and the blobs the tracker reports
    for each frame. */
module Tracker {
  import opened CText
  import opened OpenCvUtils

  // ---------------------------------------------------------------------------
  // Module tables

  /** The `create` field of a table row: a factory, or NULL. */
  datatype Factory = NullCreate | Create(fn: string)

  /** A row of a module table (the description text is left out). The NULL-nickname row
      that ends each table in the source is the end of the sequence here. */
  datatype ModuleDef = ModuleDef(create: Factory, nickname: string)

  const FGDetectorModules: seq<ModuleDef> := [
    ModuleDef(Create("cvCreateFGDetector0"), "FG_0"),
    ModuleDef(Create("cvCreateFGDetector0Simple"), "FG_0S"),
    ModuleDef(Create("cvCreateFGDetector1"), "FG_1")
  ]

  const BlobDetectorModules: seq<ModuleDef> := [
    ModuleDef(Create("cvCreateBlobDetectorCC"), "BD_CC"),
    ModuleDef(Create("cvCreateBlobDetectorSimple"), "BD_Simple")
  ]

  const BlobTrackerModules: seq<ModuleDef> := [
    ModuleDef(Create("cvCreateBlobTrackerCCMSPF"), "CCMSPF"),
    ModuleDef(Create("cvCreateBlobTrackerCC"), "CC"),
    ModuleDef(Create("cvCreateBlobTrackerMS"), "MS"),
    ModuleDef(Create("cvCreateBlobTrackerMSFG"), "MSFG"),
    ModuleDef(Create("cvCreateBlobTrackerMSPF"), "MSPF"),
    ModuleDef(Create("cvCreateBlobTrackerMSFGS"), "MSFGS")
  ]

  const BlobTrackPostProcModules: seq<ModuleDef> := [
    ModuleDef(Create("cvCreateModuleBlobTrackPostProcKalman"), "Kalman"),
    ModuleDef(NullCreate, "None")
  ]

  const BlobTrackAnalysisModules: seq<ModuleDef> := [
    ModuleDef(NullCreate, "None"),
    ModuleDef(Create("cvCreateModuleBlobTrackAnalysisHistPVS"), "HistPVS"),
    ModuleDef(Create("cvCreateModuleBlobTrackAnalysisHistP"), "HistP"),
    ModuleDef(Create("cvCreateModuleBlobTrackAnalysisHistPV"), "HistPV"),
    ModuleDef(Create("cvCreateModuleBlobTrackAnalysisHistSS"), "HistSS"),
    ModuleDef(Create("cvCreateModuleBlobTrackAnalysisTrackDist"), "TrackDist"),
    ModuleDef(Create("cvCreateModuleBlobTrackAnalysisIOR"), "IOR")
  ]

  /** The row the lookup loop stops at, from row `from` on: the first whose nickname is
      `name` (compared case-sensitively), or `|table|`, the terminator row. */
  function ModuleIndexFrom(table: seq<ModuleDef>, name: string, from: nat): (i: nat)
    requires from <= |table|
    ensures from <= i <= |table|
    ensures i < |table| ==> table[i].nickname == name
    ensures forall k :: from <= k < i ==> table[k].nickname != name
    decreases |table| - from
  {
    if from == |table| || table[from].nickname == name then from
    else ModuleIndexFrom(table, name, from + 1)
  }

  function ModuleIndex(table: seq<ModuleDef>, name: string): nat
  {
    ModuleIndexFrom(table, name, 0)
  }

  /** The factory the lookup yields: the found row's, or the terminator's NULL. */
  function FactoryOf(table: seq<ModuleDef>, name: string): (f: Factory)
    ensures (forall k :: 0 <= k < |table| ==> table[k].nickname != name) ==> f == NullCreate
    ensures f != NullCreate ==> exists k :: 0 <= k < |table| && table[k].nickname == name && table[k].create == f
  {
    var i := ModuleIndex(table, name);
    if i < |table| then table[i].create else NullCreate
  }

  /** The `for (p = table; p->nickname; ++p)` lookup. The loop always ends on a row of the
      table (the terminator at worst), so the row it leaves is never NULL. */
  method FindModule(table: seq<ModuleDef>, name: string) returns (i: nat)
    ensures i <= |table|
    ensures i == ModuleIndex(table, name)
  {
    i := 0;
    while i < |table|
      invariant i <= |table|
      invariant ModuleIndexFrom(table, name, i) == ModuleIndex(table, name)
    {
      if table[i].nickname == name {
        return;
      }
      i := i + 1;
    }
  }

  /** A name that is a nickname in the table selects the first row with it; any other
      name, a different spelling in case included, selects the terminator. */
  lemma {:induction false} ModuleIndexFound(table: seq<ModuleDef>, name: string, from: nat)
    requires from <= |table|
    ensures ModuleIndexFrom(table, name, from) < |table|
            <==> exists k :: from <= k < |table| && table[k].nickname == name
    decreases |table| - from
  {
    if from < |table| && table[from].nickname != name {
      ModuleIndexFound(table, name, from + 1);
    }
  }

  /** The nickname lookup is exact: "FG_0" finds its detector, "fg_0" finds none. "None" is
      a row of the analyser and post-processor tables, with a NULL factory. */
  lemma LookupExamples()
    ensures FactoryOf(FGDetectorModules, "FG_0") == Create("cvCreateFGDetector0")
    ensures FactoryOf(FGDetectorModules, "fg_0") == NullCreate
    ensures FactoryOf(BlobTrackAnalysisModules, "None") == NullCreate
    ensures ModuleIndex(BlobTrackAnalysisModules, "None") == 0
    ensures FactoryOf(BlobTrackPostProcModules, "None") == NullCreate
    ensures ModuleIndex(BlobTrackPostProcModules, "None") == 1
  {
    assert "fg_0" != "FG_0" && "fg_0" != "FG_0S" && "fg_0" != "FG_1";
    assert "None" != "Kalman";
  }

  // ---------------------------------------------------------------------------
  // Blob records

  /** A blob as the tracker reports it, coordinates and size already rounded to ints. */
  datatype Blob = Blob(x: int, y: int, w: int, h: int, id: int)

  function Max0(v: int): nat
  {
    if v < 0 then 0 else v
  }

  /** The separators of a record line: a blank after the frame number and after each of
      X, Y, W, H, a tab after the id, and the `std::endl` after the timestamp. */
  const RecordSeparators: seq<char> := "     \t\n"

  /** The numbers `SaveBlobRecord` writes for blob `b` of frame `frame`: the frame, X, Y, W
      and H (each clamped at 0 and doubled when the frames were downscaled), the id and the
      timestamp 0. */
  function RecordValues(frame: int, b: Blob, downScale: bool): seq<int>
  {
    var scale := if downScale then 2 else 1;
    [frame, Max0(b.x) * scale, Max0(b.y) * scale, Max0(b.w) * scale, Max0(b.h) * scale, b.id, 0]
  }

  /** The numbers `v` as `operator<<` prints them. */
  function Texts(v: seq<int>): (ts: seq<string>)
    ensures |ts| == |v|
  {
    if v == [] then [] else [Decimal(v[0])] + Texts(v[1..])
  }

  lemma {:induction false} TextsAt(v: seq<int>, k: nat)
    requires k < |v|
    ensures Texts(v)[k] == Decimal(v[k])
  {
    if k > 0 {
      TextsAt(v[1..], k - 1);
    }
  }

  /** The line `SaveBlobRecord` appends: "f X Y W H id\t0\n". */
  function RecordLine(frame: int, b: Blob, downScale: bool): (line: string)
    ensures line != [] && line[|line| - 1] == '\n'
    ensures forall k :: 0 <= k < |line| - 1 ==> line[k] != '\n'
  {
    var v := RecordValues(frame, b, downScale);
    forall j | 0 <= j < 7
      ensures forall k :: 0 <= k < |Texts(v)[j]| ==> Texts(v)[j][k] != '\n'
    {
      TextsAt(v, j);
    }
    FieldsOneLine(Texts(v), RecordSeparators, '\n');
    Fields(Texts(RecordValues(frame, b, downScale)), RecordSeparators)
  }

  /** A record line reads back: splitting it at blanks, tabs and newlines gives seven
      fields, and each reads (as `sscanf("%d")` would) as the number written. The four
      box values are never negative. */
  lemma RecordLineReadsBack(frame: int, b: Blob, downScale: bool)
    ensures var ts := Tokens(RecordLine(frame, b, downScale), " \t\n");
            var v := RecordValues(frame, b, downScale);
            && |ts| == 7
            && (forall k :: 0 <= k < 7 ==> ScanInt(ts[k]) == Some(v[k]))
            && (forall k :: 1 <= k < 5 ==> v[k] >= 0)
  {
    var v := RecordValues(frame, b, downScale);
    RecordTokens(v);
    forall k | 0 <= k < 7
      ensures ScanInt(Texts(v)[k]) == Some(v[k])
    {
      TextReadsBack(v, k);
    }
  }

  /** Seven printed numbers, split at blanks, tabs and newlines, come back as they were
      printed: no printed number holds a separator. */
  lemma RecordTokens(v: seq<int>)
    requires |v| == 7
    ensures Tokens(Fields(Texts(v), RecordSeparators), " \t\n") == Texts(v)
  {
    var xs := Texts(v);
    forall j | 0 <= j < 7
      ensures IsToken(xs[j], " \t\n") && RecordSeparators[j] in " \t\n"
    {
      TextsAt(v, j);
      assert forall k :: 0 <= k < |xs[j]| ==> IsDigit(xs[j][k]) || xs[j][k] == '-';
    }
    TokensOfFields(xs, RecordSeparators, " \t\n");
  }

  /** A printed number reads back as itself. */
  lemma TextReadsBack(v: seq<int>, k: nat)
    requires k < |v|
    ensures ScanInt(Texts(v)[k]) == Some(v[k])
  {
    TextsAt(v, k);
    ScanIntOfDecimal(v[k], []);
    assert Texts(v)[k] + [] == Texts(v)[k];
  }

  /** The lines written for one processed frame: blob `n - 1` first, blob 0 last. */
  function FrameLines(frame: int, blobs: seq<Blob>, downScale: bool): (lines: seq<string>)
    ensures |lines| == |blobs|
  {
    if blobs == [] then []
    else [RecordLine(frame, blobs[|blobs| - 1], downScale)] + FrameLines(frame, blobs[..|blobs| - 1], downScale)
  }

  /** One line per blob, from the last blob to the first. */
  lemma {:induction false} FrameLinesReversed(frame: int, blobs: seq<Blob>, downScale: bool)
    ensures |FrameLines(frame, blobs, downScale)| == |blobs|
    ensures forall k :: 0 <= k < |blobs| ==>
              FrameLines(frame, blobs, downScale)[k] == RecordLine(frame, blobs[|blobs| - 1 - k], downScale)
    decreases |blobs|
  {
    if blobs != [] {
      var init := blobs[..|blobs| - 1];
      var rest := FrameLines(frame, init, downScale);
      var lines := FrameLines(frame, blobs, downScale);
      FrameLinesReversed(frame, init, downScale);
      assert lines == [RecordLine(frame, blobs[|blobs| - 1], downScale)] + rest;
      forall k | 1 <= k < |blobs|
        ensures lines[k] == RecordLine(frame, blobs[|blobs| - 1 - k], downScale)
      {
        assert lines[k] == rest[k - 1];
        assert init[|init| - 1 - (k - 1)] == blobs[|blobs| - 1 - k];
      }
    }
  }

  /** The lines of the first `i` blobs start with blob `i - 1`'s. */
  lemma FrameLinesLast(frame: int, blobs: seq<Blob>, i: nat, downScale: bool)
    requires 0 < i <= |blobs|
    ensures FrameLines(frame, blobs[..i], downScale)
            == [RecordLine(frame, blobs[i - 1], downScale)] + FrameLines(frame, blobs[..i - 1], downScale)
  {
    assert blobs[..i][..i - 1] == blobs[..i - 1];
  }

  // ---------------------------------------------------------------------------
  // The frame loop as a function of its inputs

  /** The result of the `i`-th `grab()`: a video that ends stops grabbing. */
  function GrabAt(grabs: seq<bool>, i: nat): bool
  {
    i < |grabs| && grabs[i]
  }

  /** The result of the `i`-th `cvWaitKey`: -1 (no key) once the key sequence is over. */
  function KeyAt(keys: seq<int>, i: nat): int
  {
    if i < |keys| then keys[i] else -1
  }

  const ESC: int := 27
  /** The key that resumes continuous play. */
  const RESUME: int := 'r' as int

  /** What the frame loop leaves behind: the record lines, the delays passed to
      `cvWaitKey` (0 waits for a key, 1 does not) and the frame numbers handed to the
      tracker. */
  datatype Run = Run(record: seq<string>, waits: seq<int>, processed: seq<int>)

  /** What has been written so far (`now`), followed by what the loop still writes
      (`rest`), is what was there before (`base`) followed by the whole run (`goal`). */
  predicate Continues(now: Run, rest: Run, base: Run, goal: Run)
  {
    && now.record + rest.record == base.record + goal.record
    && now.waits + rest.waits == base.waits + goal.waits
    && now.processed + rest.processed == base.processed + goal.processed
  }

  /** The record lines written for frame `f` when the tracker reports `blobsOf(f)`. */
  function RecordOf(blobsOf: int -> seq<Blob>, downScale: bool): int -> seq<string>
  {
    f => FrameLines(f, blobsOf(f), downScale)
  }

  /** The frame loop from iteration `n` on (`frameNum == n + 1`), in single-step mode when
      `oneFrame`: grab, then read a key, then check the frame range; frames below
      `start` are grabbed but not processed; on a processed frame a key other than -1
      turns single-step mode on, unless it is 'r', which turns it off; `linesOf(f)` is what
      a processed frame `f` adds to the record. */
  function Loop(n: nat, oneFrame: bool, start: int, end: int, grabs: seq<bool>, keys: seq<int>,
                linesOf: int -> seq<string>): (r: Run)
    ensures |r.processed| <= |r.waits|
    ensures r.waits != [] ==> n + |r.waits| <= |grabs|
    decreases |grabs| - n
  {
    var frameNum := n + 1;
    if !GrabAt(grabs, n) then Run([], [], [])
    else
      var wait := if oneFrame then 0 else 1;
      var key := KeyAt(keys, n);
      if key == ESC || !(frameNum <= end || end < 0) then Run([], [wait], [])
      else
        var processed := frameNum >= start;
        var oneFrame' := if processed && key != -1 then key != RESUME else oneFrame;
        var lines := if processed then linesOf(frameNum) else [];
        var rest := Loop(n + 1, oneFrame', start, end, grabs, keys, linesOf);
        Run(lines + rest.record, [wait] + rest.waits, (if processed then [frameNum] else []) + rest.processed)
  }

  /** One iteration of the loop, unfolded. */
  lemma LoopStep(n: nat, oneFrame: bool, start: int, end: int, grabs: seq<bool>, keys: seq<int>,
                 linesOf: int -> seq<string>)
    requires GrabAt(grabs, n) && KeyAt(keys, n) != ESC && (n + 1 <= end || end < 0)
    ensures var processed := n + 1 >= start;
            var key := KeyAt(keys, n);
            var oneFrame' := if processed && key != -1 then key != RESUME else oneFrame;
            var r := Loop(n, oneFrame, start, end, grabs, keys, linesOf);
            var rest := Loop(n + 1, oneFrame', start, end, grabs, keys, linesOf);
            && r.record == (if processed then linesOf(n + 1) else []) + rest.record
            && r.waits == [if oneFrame then 0 else 1] + rest.waits
            && r.processed == (if processed then [n + 1] else []) + rest.processed
  {
  }

  /** The frames `a`, `a + 1`, ..., `b - 1`. */
  function Range(a: int, b: int): seq<int>
    decreases b - a
  {
    if a >= b then [] else [a] + Range(a + 1, b)
  }

  /** The processed frames are consecutive, none is below `start` or below 1, and none is
      past `end` when `end` is not negative. */
  lemma {:induction false} ProcessedFrames(n: nat, oneFrame: bool, start: int, end: int, grabs: seq<bool>,
                                           keys: seq<int>, linesOf: int -> seq<string>)
    ensures var p := Loop(n, oneFrame, start, end, grabs, keys, linesOf).processed;
            && (forall k :: 0 <= k < |p| ==> n + 1 <= p[k] && start <= p[k] && (end < 0 || p[k] <= end))
            && (forall k :: 0 <= k < |p| - 1 ==> p[k + 1] == p[k] + 1)
    decreases |grabs| - n
  {
    var frameNum := n + 1;
    if GrabAt(grabs, n) && KeyAt(keys, n) != ESC && (frameNum <= end || end < 0) {
      var key := KeyAt(keys, n);
      var processed := frameNum >= start;
      var oneFrame' := if processed && key != -1 then key != RESUME else oneFrame;
      var rest := Loop(n + 1, oneFrame', start, end, grabs, keys, linesOf).processed;
      ProcessedFrames(n + 1, oneFrame', start, end, grabs, keys, linesOf);
      if processed && rest != [] {
        // the frame after a processed one is processed too, being above `start` as well
        RestStartsNext(n + 1, oneFrame', start, end, grabs, keys, linesOf);
      }
    }
  }

  /** Once a frame at or above `start` has been reached, the next processed frame (if
      any) is the next frame. */
  lemma RestStartsNext(n: nat, oneFrame: bool, start: int, end: int, grabs: seq<bool>, keys: seq<int>,
                       linesOf: int -> seq<string>)
    requires n >= start
    ensures var p := Loop(n, oneFrame, start, end, grabs, keys, linesOf).processed;
            p != [] ==> p[0] == n + 1
  {
  }

  /** With every grab succeeding and no ESC up to frame `end` (not negative), the loop
      processes exactly the frames from `start` (or 1) to `end`, both included. */
  lemma {:induction false} FullRun(n: nat, oneFrame: bool, start: int, end: int, grabs: seq<bool>,
                                   keys: seq<int>, linesOf: int -> seq<string>)
    requires end >= 0
    requires forall i :: n <= i < end ==> GrabAt(grabs, i) && KeyAt(keys, i) != ESC
    ensures Loop(n, oneFrame, start, end, grabs, keys, linesOf).processed
            == Range(if start > n + 1 then start else n + 1, end + 1)
    decreases |grabs| - n
  {
    var frameNum := n + 1;
    if frameNum <= end {
      var key := KeyAt(keys, n);
      var processed := frameNum >= start;
      var oneFrame' := if processed && key != -1 then key != RESUME else oneFrame;
      FullRun(n + 1, oneFrame', start, end, grabs, keys, linesOf);
      LoopStep(n, oneFrame, start, end, grabs, keys, linesOf);
    }
  }

  /** With a negative `end`, every grab succeeding and no ESC, the loop processes every
      frame of the video from `start` (or 1) on. */
  lemma {:induction false} OpenEndedRun(n: nat, oneFrame: bool, start: int, end: int, grabs: seq<bool>,
                                        keys: seq<int>, linesOf: int -> seq<string>)
    requires end < 0
    requires forall i :: n <= i < |grabs| ==> grabs[i] && KeyAt(keys, i) != ESC
    ensures Loop(n, oneFrame, start, end, grabs, keys, linesOf).processed
            == Range(if start > n + 1 then start else n + 1, |grabs| + 1)
    decreases |grabs| - n
  {
    if n < |grabs| {
      var key := KeyAt(keys, n);
      var processed := n + 1 >= start;
      var oneFrame' := if processed && key != -1 then key != RESUME else oneFrame;
      OpenEndedRun(n + 1, oneFrame', start, end, grabs, keys, linesOf);
      LoopStep(n, oneFrame, start, end, grabs, keys, linesOf);
    }
  }

  /** `Range(a, b)` holds `b - a` frames. */
  lemma {:induction false} RangeLength(a: int, b: int)
    requires a <= b
    ensures |Range(a, b)| == b - a
    decreases b - a
  {
    if a < b {
      RangeLength(a + 1, b);
    }
  }

  /** A frame is processed only if every grab before and at it succeeded and no key read
      up to it was ESC. */
  lemma {:induction false} NothingAfterStop(n: nat, oneFrame: bool, start: int, end: int, grabs: seq<bool>,
                                            keys: seq<int>, linesOf: int -> seq<string>, f: int)
    requires f in Loop(n, oneFrame, start, end, grabs, keys, linesOf).processed
    ensures forall i :: n <= i < f ==> GrabAt(grabs, i) && KeyAt(keys, i) != ESC
    decreases |grabs| - n
  {
    var frameNum := n + 1;
    if GrabAt(grabs, n) && KeyAt(keys, n) != ESC && (frameNum <= end || end < 0) {
      var key := KeyAt(keys, n);
      var processed := frameNum >= start;
      var oneFrame' := if processed && key != -1 then key != RESUME else oneFrame;
      LoopStep(n, oneFrame, start, end, grabs, keys, linesOf);
      if f != frameNum {
        NothingAfterStop(n + 1, oneFrame', start, end, grabs, keys, linesOf, f);
      }
    }
  }

  /** Single-step control: after a processed frame on which key `k` (not -1) was read, the
      next `cvWaitKey` waits for a key (delay 0) unless `k` is 'r' (delay 1). */
  lemma SingleStep(n: nat, oneFrame: bool, start: int, end: int, grabs: seq<bool>, keys: seq<int>,
                   linesOf: int -> seq<string>)
    requires GrabAt(grabs, n) && KeyAt(keys, n) != ESC && (n + 1 <= end || end < 0)
    requires n + 1 >= start && KeyAt(keys, n) != -1 && GrabAt(grabs, n + 1)
    ensures var w := Loop(n, oneFrame, start, end, grabs, keys, linesOf).waits;
            |w| >= 2 && w[1] == (if KeyAt(keys, n) == RESUME then 1 else 0)
  {
    LoopStep(n, oneFrame, start, end, grabs, keys, linesOf);
  }

  // ---------------------------------------------------------------------------
  // The camera

  /** `CvBlobTrackerAutoParam1` as `Initialize` fills it before creating the tracker. */
  datatype AutoParams = AutoParams(fgTrainFrames: int, modules: Modules, usePPData: bool)

  /** How a call ends: normally, in `AbortError` (which exits the program), or in a call
      through the NULL `create` field of a module that was not found. */
  datatype Status = Done | Aborted | NullFactoryCalled

  /** What opening files yields during `Initialize`: the input video, the record file and
      the two output video writers. */
  datatype Devices = Devices(videoOpens: bool, recordOpens: bool, writersOpen: bool)

  /** The settings and handles of a camera, as one value; what it has written and
      observed so far (its trace) is a `Run`. */
  datatype CameraState = CameraState(
    cameraId: int, outputDirectory: string,
    display: bool, save: bool, downScale: bool, fgTrainFrames: int,
    fgName: string, bdName: string, btName: string, baName: string, bpName: string,
    initialized: bool, handles: Modules, tracker: Option<AutoParams>, recordOpen: bool)

  /** A camera as the constructor leaves it. */
  const Fresh: CameraState := CameraState(
    0, "", false, true, false, 5, "", "", "", "", "", false,
    Modules(null, null, null, null, null), None, false)

  /** The parameter names each engine factory's module lists: every name is NUL-free
      and there is no gap in the list. */
  ghost predicate FactoriesOk(paramsOf: string -> seq<string>)
  {
    forall f :: NamesOk(paramsOf(f))
  }

  /** The assignments `SetParameters` makes for the text `params` copied into a buffer
      with `strcpy`. */
  function ModuleSets(params: string, prefix: string, names: seq<string>): seq<ParamSet>
    requires NulFree(prefix) && NamesOk(names)
  {
    CStringBuffer(params);
    Directives(CString(params) + [NUL], 0, prefix, names).sets
  }

  /** Module `m` is the one `table`'s factory for `name` creates, and it has been handed
      the directives of `params` under `prefix`, with one parameter update. */
  ghost predicate Applied(m: VSModule?, f: Factory, params: string, prefix: string,
                          paramsOf: string -> seq<string>)
    reads m
  {
    && m != null && f.Create?
    && m.names == paramsOf(f.fn)
    && NamesOk(m.names) && NulFree(prefix)
    && m.sets == ModuleSets(params, prefix, m.names)
    && m.updates == 1
  }

  /** The three required modules are in their tables. */
  predicate RequiredFound(st: CameraState)
  {
    && FactoryOf(FGDetectorModules, st.fgName).Create?
    && FactoryOf(BlobDetectorModules, st.bdName).Create?
    && FactoryOf(BlobTrackerModules, st.btName).Create?
  }

  /** The analyser and the post-processor are each "None" or in their table. */
  predicate OptionalFound(st: CameraState)
  {
    && (st.baName == "None" || FactoryOf(BlobTrackAnalysisModules, st.baName).Create?)
    && (st.bpName == "None" || FactoryOf(BlobTrackPostProcModules, st.bpName).Create?)
  }

  /** Every module the settings name can be created. */
  predicate Creatable(st: CameraState)
  {
    RequiredFound(st) && OptionalFound(st)
  }

  /** How `Initialize` ends: the input video, then the record file must open; then each
      module is looked up and created; then, when results are saved, the output videos
      must open. */
  function InitOutcome(st: CameraState, io: Devices): (r: Status)
    ensures r == Done <==> io.videoOpens && io.recordOpens && Creatable(st) && (st.save ==> io.writersOpen)
    ensures r == NullFactoryCalled <==> io.videoOpens && io.recordOpens && !Creatable(st)
  {
    if !io.videoOpens || !io.recordOpens then Aborted
    else if !Creatable(st) then NullFactoryCalled
    else if st.save && !io.writersOpen then Aborted
    else Done
  }

  /** A camera whose module names were never set cannot be initialized: the empty name
      is in no table, so the foreground detector's factory is NULL. */
  lemma UnsetModulesFail(io: Devices)
    requires io.videoOpens && io.recordOpens
    ensures InitOutcome(Fresh, io) == NullFactoryCalled
  {
    assert "" != "FG_0" && "" != "FG_0S" && "" != "FG_1";
  }

  /** Naming "None" for the analyser and post-processor is always accepted: with known
      detectors and tracker and the files open, initialization succeeds. */
  lemma NoneIsOptional(st: CameraState, io: Devices)
    requires st.fgName == "FG_0" && st.bdName == "BD_Simple" && st.btName == "CCMSPF"
    requires st.baName == "None" && st.bpName == "None"
    requires io.videoOpens && io.recordOpens && io.writersOpen
    ensures InitOutcome(st, io) == Done
  {
    assert "BD_Simple" != "BD_CC";
  }

  /** `strcpy(tempCharString, params.c_str())`: the C string of `params` and its NUL. */
  method CopyParams(params: string) returns (buf: array<char>)
    ensures fresh(buf) && buf[..] == CString(params) + [NUL]
  {
    var c := CString(params);
    buf := new char[|c| + 1](i requires 0 <= i <= |c| => if i < |c| then c[i] else NUL);
  }

  /** One module of `Initialize`: look `name` up in `table`; unless its factory is NULL,
      create the module, copy `params` into a buffer and apply its directives under
      `prefix`. */
  method CreateModule(table: seq<ModuleDef>, name: string, params: string, prefix: string,
                      paramsOf: string -> seq<string>) returns (m: VSModule?)
    requires NulFree(prefix) && FactoriesOk(paramsOf)
    ensures m == null <==> FactoryOf(table, name) == NullCreate
    ensures m != null ==> fresh(m) && Applied(m, FactoryOf(table, name), params, prefix, paramsOf)
  {
    var i := FindModule(table, name);
    var create := if i < |table| then table[i].create else NullCreate;
    if create == NullCreate {
      return null;
    }
    var created := new VSModule(paramsOf(create.fn));
    var buf := CopyParams(params);
    CStringBuffer(params);
    SetParameters(buf, created, prefix);
    m := created;
  }

  /** The five module handles `Initialize` creates. */
  datatype Modules = Modules(fg: VSModule?, bd: VSModule?, bt: VSModule?, bta: VSModule?, btpp: VSModule?)

  /** The modules are the ones the settings `st` name, each handed its parameter text
      under its prefix: "fg", "bd", "bt", "bta", and "btpp" for the post-processor, which
      receives the analysis text. An analyser or post-processor named "None" is absent. */
  ghost predicate Assembled(ms: Modules, st: CameraState, fgParams: string, bdParams: string,
                            btParams: string, baParams: string, paramsOf: string -> seq<string>)
    reads ms.fg, ms.bd, ms.bt, ms.bta, ms.btpp
  {
    && Applied(ms.fg, FactoryOf(FGDetectorModules, st.fgName), fgParams, "fg", paramsOf)
    && Applied(ms.bd, FactoryOf(BlobDetectorModules, st.bdName), bdParams, "bd", paramsOf)
    && Applied(ms.bt, FactoryOf(BlobTrackerModules, st.btName), btParams, "bt", paramsOf)
    && (if st.baName == "None" then ms.bta == null
        else Applied(ms.bta, FactoryOf(BlobTrackAnalysisModules, st.baName), baParams, "bta", paramsOf))
    && (if st.bpName == "None" then ms.btpp == null
        else Applied(ms.btpp, FactoryOf(BlobTrackPostProcModules, st.bpName), baParams, "btpp", paramsOf))
  }

  /** The handles after `Initialize` stored the new modules `ms` over `prev`: an absent
      analyser or post-processor leaves its handle as it was. */
  function Kept(ms: Modules, prev: Modules): Modules
  {
    ms.(bta := if ms.bta == null then prev.bta else ms.bta,
        btpp := if ms.btpp == null then prev.btpp else ms.btpp)
  }

  twostate predicate FreshModules(new ms: Modules)
  {
    && fresh(ms.fg) && fresh(ms.bd) && fresh(ms.bt)
    && (ms.bta != null ==> fresh(ms.bta))
    && (ms.btpp != null ==> fresh(ms.btpp))
  }

  /** The module part of `Initialize`: look up and create each module in turn, stopping
      at the first whose factory is NULL. */
  method CreateModules(st: CameraState, fgParams: string, bdParams: string, btParams: string,
                       baParams: string, paramsOf: string -> seq<string>) returns (ok: bool, ms: Modules)
    requires FactoriesOk(paramsOf)
    ensures ok == Creatable(st)
    ensures ok ==> Assembled(ms, st, fgParams, bdParams, btParams, baParams, paramsOf) && FreshModules(ms)
  {
    var fg, bd, bt;
    ok, fg, bd, bt := CreateRequired(st, fgParams, bdParams, btParams, paramsOf);
    ms := Modules(fg, bd, bt, null, null);
    if ok {
      var bta, btpp;
      ok, bta, btpp := CreateOptional(st, baParams, paramsOf);
      ms := Modules(fg, bd, bt, bta, btpp);
    }
  }

  /** The foreground detector, blob detector and blob tracker, in this order. */
  method CreateRequired(st: CameraState, fgParams: string, bdParams: string, btParams: string,
                        paramsOf: string -> seq<string>) returns (ok: bool, fg: VSModule?, bd: VSModule?, bt: VSModule?)
    requires FactoriesOk(paramsOf)
    ensures ok == RequiredFound(st)
    ensures ok ==>
      && fresh(fg) && Applied(fg, FactoryOf(FGDetectorModules, st.fgName), fgParams, "fg", paramsOf)
      && fresh(bd) && Applied(bd, FactoryOf(BlobDetectorModules, st.bdName), bdParams, "bd", paramsOf)
      && fresh(bt) && Applied(bt, FactoryOf(BlobTrackerModules, st.btName), btParams, "bt", paramsOf)
  {
    bd, bt := null, null;
    fg := CreateModule(FGDetectorModules, st.fgName, fgParams, "fg", paramsOf);
    if fg == null {
      return false, fg, bd, bt;
    }
    bd := CreateModule(BlobDetectorModules, st.bdName, bdParams, "bd", paramsOf);
    if bd == null {
      return false, fg, bd, bt;
    }
    bt := CreateModule(BlobTrackerModules, st.btName, btParams, "bt", paramsOf);
    ok := bt != null;
  }

  /** The analyser, then the post-processor, each unless named "None"; both receive the
      analysis parameter text. */
  method CreateOptional(st: CameraState, baParams: string, paramsOf: string -> seq<string>)
    returns (ok: bool, bta: VSModule?, btpp: VSModule?)
    requires FactoriesOk(paramsOf)
    ensures ok == OptionalFound(st)
    ensures ok ==>
      && (if st.baName == "None" then bta == null
          else fresh(bta) && Applied(bta, FactoryOf(BlobTrackAnalysisModules, st.baName), baParams, "bta", paramsOf))
      && (if st.bpName == "None" then btpp == null
          else fresh(btpp) && Applied(btpp, FactoryOf(BlobTrackPostProcModules, st.bpName), baParams, "btpp", paramsOf))
  {
    bta, btpp := null, null;
    if st.baName != "None" {
      bta := CreateModule(BlobTrackAnalysisModules, st.baName, baParams, "bta", paramsOf);
      if bta == null {
        return false, bta, btpp;
      }
    }
    if st.bpName != "None" {
      btpp := CreateModule(BlobTrackPostProcModules, st.bpName, baParams, "btpp", paramsOf);
      if btpp == null {
        return false, bta, btpp;
      }
    }
    ok := true;
  }

  class Camera {
    var cameraId: int
    const videoSourceDirectory: string
    const videoFileName: string
    var videoOutputDirectory: string
    var displayIntermediateResult: bool
    var saveIntermediateResult: bool
    var downScaleImage: bool
    var fgTrainFrames: int
    var fgDetectorModName: string
    var blobDetectorModName: string
    var blobTrackerModName: string
    var blobAnalyzerModName: string
    var blobPostProcModName: string
    var initialized: bool
    /** The five module handles (foreground detector, blob detector, blob tracker,
        trajectory analysis, post-processing), kept together. */
    var modules: Modules
    /** The parameters the auto tracker was created with, once it exists. */
    var tracker: Option<AutoParams>
    var recordOpen: bool
    /** The lines written to the record file. */
    var record: seq<string>
    /** The delays passed to `cvWaitKey`, in order. */
    var waits: seq<int>
    /** The frame numbers handed to the tracker, in order. */
    var processed: seq<int>

    function State(): CameraState
      reads this
    {
      CameraState(cameraId, videoOutputDirectory, displayIntermediateResult, saveIntermediateResult,
                  downScaleImage, fgTrainFrames, fgDetectorModName, blobDetectorModName,
                  blobTrackerModName, blobAnalyzerModName, blobPostProcModName, initialized,
                  modules, tracker, recordOpen)
    }

    /** The record file's lines, the `cvWaitKey` delays and the processed frames. */
    function Trace(): Run
      reads this
    {
      Run(record, waits, processed)
    }

    /** The save flag starts as the non-NULL address of "" and nothing clears it, so
        intermediate results are always saved. */
    predicate Valid()
      reads this
    {
      saveIntermediateResult
    }

    constructor (sourceDirectory: string, fileName: string)
      ensures Valid() && State() == Fresh && Trace() == Run([], [], [])
      ensures videoSourceDirectory == sourceDirectory && videoFileName == fileName
    {
      cameraId := 0;
      videoSourceDirectory := sourceDirectory;
      videoFileName := fileName;
      videoOutputDirectory := "";
      displayIntermediateResult := false;
      saveIntermediateResult := true;
      downScaleImage := false;
      fgTrainFrames := 5;
      fgDetectorModName := "";
      blobDetectorModName := "";
      blobTrackerModName := "";
      blobAnalyzerModName := "";
      blobPostProcModName := "";
      initialized := false;
      modules := Modules(null, null, null, null, null);
      tracker := None;
      recordOpen := false;
      record := [];
      waits := [];
      processed := [];
    }

    method SetCameraId(id: int)
      modifies this
      ensures State() == old(State()).(cameraId := id) && Trace() == old(Trace())
    {
      cameraId := id;
    }

    /** The directory arrives as a `const char*`: the text up to its first NUL is kept. */
    method SetVideoOutputDirectory(directoryName: string)
      modifies this
      ensures State() == old(State()).(outputDirectory := CString(directoryName)) && Trace() == old(Trace())
    {
      videoOutputDirectory := CString(directoryName);
    }

    method SetFGTrainFrame(num: int)
      modifies this
      ensures State() == old(State()).(fgTrainFrames := num) && Trace() == old(Trace())
    {
      fgTrainFrames := num;
    }

    method SetFgDetectionModule(name: string)
      modifies this
      ensures State() == old(State()).(fgName := CString(name)) && Trace() == old(Trace())
    {
      fgDetectorModName := CString(name);
    }

    method SetBlobDetectionModule(name: string)
      modifies this
      ensures State() == old(State()).(bdName := CString(name)) && Trace() == old(Trace())
    {
      blobDetectorModName := CString(name);
    }

    method SetBlobTrackerModule(name: string)
      modifies this
      ensures State() == old(State()).(btName := CString(name)) && Trace() == old(Trace())
    {
      blobTrackerModName := CString(name);
    }

    method SetBlobAnalysisModule(name: string)
      modifies this
      ensures State() == old(State()).(baName := CString(name)) && Trace() == old(Trace())
    {
      blobAnalyzerModName := CString(name);
    }

    method SetBlobProcessingModule(name: string)
      modifies this
      ensures State() == old(State()).(bpName := CString(name)) && Trace() == old(Trace())
    {
      blobPostProcModName := CString(name);
    }

    method EnableDisplayIntermediateResult()
      modifies this
      ensures State() == old(State()).(display := true) && Trace() == old(Trace())
    {
      displayIntermediateResult := true;
    }

    /** The flag is already set in a valid camera, so nothing changes. */
    method EnableSaveIntermediateResult()
      requires Valid()
      modifies this
      ensures State() == old(State()) && Trace() == old(Trace())
    {
      saveIntermediateResult := true;
    }

    method EnableOriginalImageDownScale()
      modifies this
      ensures State() == old(State()).(downScale := true) && Trace() == old(Trace())
    {
      downScaleImage := true;
    }

    /** The record file "<output directory>/<video>_record.txt", opened for writing:
        it starts empty. */
    method OpenRecord()
      modifies this
      ensures State() == old(State()).(recordOpen := true) && Trace() == old(Trace()).(record := [])
    {
      recordOpen := true;
      record := [];
    }

    /** The module handles are stored. */
    method Install(ms: Modules)
      modifies this
      ensures State() == old(State()).(handles := ms) && Trace() == old(Trace())
    {
      modules := ms;
    }

    /** `cvCreateBlobTrackerAuto1` on the parameters filled from the camera's handles;
        then the camera is initialized. */
    method CreateTracker()
      modifies this
      ensures State() == old(State()).(initialized := true, tracker := Some(AutoParams(fgTrainFrames, modules, false)))
      ensures Trace() == old(Trace())
    {
      tracker := Some(AutoParams(fgTrainFrames, modules, false));
      initialized := true;
    }

    /** Opens the input video and the record file, creates the five modules from the
        configured names, hands each its parameter text, and creates the auto tracker
        from them. The camera counts as initialized only when everything succeeded. An
        analyser or post-processor named "None" is not created, and its handle keeps its
        value. */
    method Initialize(fgParams: string, bdParams: string, btParams: string, baParams: string,
                      bpParams: string, io: Devices, paramsOf: string -> seq<string>)
      returns (status: Status, ghost ms: Modules)
      requires Valid() && FactoriesOk(paramsOf)
      modifies this
      ensures Valid()
      ensures status == InitOutcome(old(State()), io)
      ensures status != Done ==> initialized == old(initialized) && tracker == old(tracker)
      ensures status == Done ==>
        && Assembled(ms, old(State()), fgParams, bdParams, btParams, baParams, paramsOf)
        && modules == Kept(ms, old(modules))
        && State() == old(State()).(initialized := true, recordOpen := true, handles := modules,
                                    tracker := Some(AutoParams(fgTrainFrames, modules, false)))
        && Trace() == old(Trace()).(record := [])
      ensures status == Done ==> FreshModules(ms)
    {
      ms := Modules(null, null, null, null, null);
      if !io.videoOpens || !io.recordOpens {
        return Aborted, ms;
      }
      var ok, created := CreateModules(State(), fgParams, bdParams, btParams, baParams, paramsOf);
      ms := created;
      if !ok {
        return NullFactoryCalled, ms;
      }
      if saveIntermediateResult && !io.writersOpen {
        return Aborted, ms;
      }
      Install(Kept(created, modules));
      OpenRecord();
      CreateTracker();
      status := Done;
    }

    /** `SaveBlobRecord`: one record line for blob `b` of frame `frameNumber`. */
    method SaveBlobRecord(b: Blob, frameNumber: int)
      modifies this
      ensures State() == old(State())
      ensures record == old(record) + [RecordLine(frameNumber, b, downScaleImage)]
      ensures waits == old(waits) && processed == old(processed)
    {
      record := record + [RecordLine(frameNumber, b, downScaleImage)];
    }

    /** The record loop of a processed frame: blob `n - 1` down to blob 0. */
    method SaveFrameBlobs(frameNum: int, blobs: seq<Blob>)
      modifies this
      ensures State() == old(State())
      ensures record == old(record) + FrameLines(frameNum, blobs, downScaleImage)
      ensures waits == old(waits) && processed == old(processed)
    {
      var i := |blobs|;
      assert blobs[..i] == blobs;
      while i > 0
        invariant 0 <= i <= |blobs|
        invariant State() == old(State()) && waits == old(waits) && processed == old(processed)
        invariant record + FrameLines(frameNum, blobs[..i], downScaleImage)
                  == old(record) + FrameLines(frameNum, blobs, downScaleImage)
      {
        ghost var before := record;
        FrameLinesLast(frameNum, blobs, i, downScaleImage);
        SaveBlobRecord(blobs[i - 1], frameNum);
        Reassociate(before, [RecordLine(frameNum, blobs[i - 1], downScaleImage)],
                    FrameLines(frameNum, blobs[..i - 1], downScaleImage));
        i := i - 1;
      }
    }

    /** `cvWaitKey(wait)`: the delay is recorded. */
    method WaitKey(wait: int)
      modifies this
      ensures State() == old(State())
      ensures waits == old(waits) + [wait] && record == old(record) && processed == old(processed)
    {
      waits := waits + [wait];
    }

    /** `m_pTracker->Process`: the frame number is recorded. */
    method HandToTracker(frameNum: int)
      modifies this
      ensures State() == old(State())
      ensures processed == old(processed) + [frameNum] && record == old(record) && waits == old(waits)
    {
      processed := processed + [frameNum];
    }

    /** The body of the frame loop: from `startFrameIndex` on, a key read (other than
        -1) sets single-step mode unless it is 'r', the frame goes to the tracker and
        the blobs it reports are recorded; below it nothing happens. */
    method Iterate(frameNum: int, key: int, oneFrame: bool, startFrameIndex: int, blobs: seq<Blob>)
      returns (oneFrame': bool)
      modifies this
      ensures oneFrame' == (if frameNum >= startFrameIndex && key != -1 then key != RESUME else oneFrame)
      ensures State() == old(State()) && waits == old(waits)
      ensures var now := frameNum >= startFrameIndex;
              && record == old(record) + (if now then FrameLines(frameNum, blobs, downScaleImage) else [])
              && processed == old(processed) + (if now then [frameNum] else [])
    {
      oneFrame' := oneFrame;
      if frameNum >= startFrameIndex {
        if key != -1 {
          oneFrame' := key != RESUME;
        }
        HandToTracker(frameNum);
        SaveFrameBlobs(frameNum, blobs);
      }
    }

    /** One turn of the frame loop for frame `frameNum`: its condition (grab, read a key,
        check the range) and, when it holds, its body. What it writes, followed by what
        the loop does from the next frame on (nothing once it stops), is what the loop
        does from this frame on. */
    method Turn(frameNum: nat, oneFrame: bool, startFrameIndex: int, endFrameIndex: int, grabs: seq<bool>,
                keys: seq<int>, blobsOf: int -> seq<Blob>) returns (stop: bool, oneFrame': bool)
      requires frameNum >= 1
      modifies this
      ensures State() == old(State())
      ensures !stop ==> frameNum - 1 < |grabs|
      ensures var r := Loop(frameNum - 1, oneFrame, startFrameIndex, endFrameIndex, grabs, keys, RecordOf(blobsOf, downScaleImage));
              var rest := if stop then Run([], [], [])
                          else Loop(frameNum, oneFrame', startFrameIndex, endFrameIndex, grabs, keys, RecordOf(blobsOf, downScaleImage));
              && record + rest.record == old(record) + r.record
              && waits + rest.waits == old(waits) + r.waits
              && processed + rest.processed == old(processed) + r.processed
    {
      var n := frameNum - 1;
      oneFrame' := oneFrame;
      if !GrabAt(grabs, n) {
        return true, oneFrame';
      }
      var wait := if oneFrame then 0 else 1;
      var key := KeyAt(keys, n);
      WaitKey(wait);
      if key == ESC || !(frameNum <= endFrameIndex || endFrameIndex < 0) {
        return true, oneFrame';
      }
      ghost var record0, waits0, processed0 := old(record), old(waits), old(processed);
      ghost var lines := if frameNum >= startFrameIndex then FrameLines(frameNum, blobsOf(frameNum), downScaleImage) else [];
      ghost var frames := if frameNum >= startFrameIndex then [frameNum] else [];
      oneFrame' := Iterate(frameNum, key, oneFrame, startFrameIndex, blobsOf(frameNum));
      LoopStep(n, oneFrame, startFrameIndex, endFrameIndex, grabs, keys, RecordOf(blobsOf, downScaleImage));
      ghost var rest := Loop(frameNum, oneFrame', startFrameIndex, endFrameIndex, grabs, keys, RecordOf(blobsOf, downScaleImage));
      Reassociate(record0, lines, rest.record);
      Reassociate(processed0, frames, rest.processed);
      Reassociate(waits0, [wait], rest.waits);
      stop := false;
    }

    /** The frame loop of `Process`, proved against `Loop`: each iteration grabs (the
        `n`-th entry of `grabs`), reads a key with delay 0 in single-step mode and 1
        otherwise, stops on ESC or past `endFrameIndex` (unless it is negative), and from
        `startFrameIndex` on updates single-step mode, hands the frame to the tracker
        and records its blobs. The video, the keyboard and the tracker's blobs are the
        inputs `grabs`, `keys` and `blobsOf`. Processing needs an initialized camera;
        otherwise `ASSERT_TRUE` aborts and nothing is run. */
    method Process(startFrameIndex: int, endFrameIndex: int, grabs: seq<bool>, keys: seq<int>,
                   blobsOf: int -> seq<Blob>) returns (status: Status)
      modifies this
      ensures status == (if old(initialized) && old(tracker).Some? then Done else Aborted)
      ensures State() == old(State())
      ensures status == Aborted ==> Trace() == old(Trace())
      ensures status == Done ==>
        var r := Loop(0, false, startFrameIndex, endFrameIndex, grabs, keys, RecordOf(blobsOf, downScaleImage));
        && record == old(record) + r.record
        && waits == old(waits) + r.waits
        && processed == old(processed) + r.processed
    {
      if !initialized || tracker.None? {
        return Aborted;
      }
      ghost var linesOf := RecordOf(blobsOf, downScaleImage);
      ghost var goal := Loop(0, false, startFrameIndex, endFrameIndex, grabs, keys, linesOf);
      ghost var base := Trace();
      var frameNum := 1;
      var oneFrame := false;
      while true
        invariant 1 <= frameNum <= |grabs| + 1
        invariant State() == old(State()) && downScaleImage == old(downScaleImage)
        invariant Continues(Trace(), Loop(frameNum - 1, oneFrame, startFrameIndex, endFrameIndex, grabs, keys, linesOf), base, goal)
        decreases |grabs| + 1 - frameNum
      {
        var stop, oneFrame' := Turn(frameNum, oneFrame, startFrameIndex, endFrameIndex, grabs, keys, blobsOf);
        if stop {
          break;
        }
        oneFrame := oneFrame';
        frameNum := frameNum + 1;
      }
      status := Done;
    }
  }
}
