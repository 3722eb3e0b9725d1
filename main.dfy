/** `main` and `InitializeInputOutputSettings`: the comma-separated video and camera-ID
    lists, the settings every camera receives, the last frame to process, and the order
    in which the cameras are set up and run. */
module BlobTracker {
  import opened CText
  import opened Config
  import opened ConfigArgs
  import opened OpenCvUtils
  import opened Tracker

  /** The delimiters handed to `strtok`. */
  const COMMA: seq<char> := ","

  // ---------------------------------------------------------------------------
  // strtok, one call at a time

  /** What a `strtok` walk over `s` has still to return: the piece it just returned, if
      any, then the pieces after the saved position `next`. */
  function Remaining(s: string, piece: Option<string>, next: nat): seq<string>
    requires next <= |s|
  {
    match piece
    case None => []
    case Some(p) => [p] + Tokens(s[next..], COMMA)
  }

  /** When the pieces still to come from position `n` of `names` are `p` and then
      `rest`, the next piece is `names[n]`. */
  lemma NextOfRemaining(names: seq<string>, n: nat, p: string, rest: seq<string>)
    requires n <= |names| && [p] + rest == names[n..]
    ensures n < |names| && names[n] == p && names[n + 1..] == rest
  {
    assert names[n..][0] == p;
    assert names[n..][1..] == names[n + 1..];
  }

  /** A delimiter in front is skipped. */
  lemma SkipDelimiter(s: string, i: nat)
    requires i < |s| && s[i] in COMMA
    ensures Tokens(s[i..], COMMA) == Tokens(s[i + 1..], COMMA)
  {
    assert s[i..][1..] == s[i + 1..];
  }

  /** A run of non-delimiters from `i` up to a delimiter or the end at `j` is the next
      piece. */
  lemma PieceAt(s: string, i: nat, j: nat)
    requires i < j <= |s|
    requires forall k :: i <= k < j ==> s[k] !in COMMA
    requires j < |s| ==> s[j] in COMMA
    ensures Tokens(s[i..], COMMA) == [s[i..j]] + Tokens(s[j..], COMMA)
  {
    var t := s[i..];
    var p := s[i..j];
    assert forall k :: 0 <= k < |p| ==> p[k] == s[i + k];
    if j < |s| {
      assert t[..|p|] == p && t[|p|] == s[j];
      TokenLengthOf(t, p, COMMA);
    } else {
      assert t == p;
      TokenLengthAll(t, COMMA);
    }
    assert t[..j - i] == p && t[j - i..] == s[j..];
  }

  /** One `strtok` call on the text `s` whose saved position is `pos`: it skips the
      delimiters, returns the run of non-delimiters that follows (nothing at the end of
      the text) and saves the position after the delimiter that ends it. So the walk
      returns exactly `Tokens(s, COMMA)`, in order. */
  method NextPiece(s: string, pos: nat) returns (piece: Option<string>, next: nat)
    requires pos <= |s|
    ensures pos <= next <= |s|
    ensures Remaining(s, piece, next) == Tokens(s[pos..], COMMA)
  {
    var i := SkipDelimiters(s, pos);
    if i == |s| {
      assert s[i..] == [];
      return None, i;
    }
    var j := PieceEnd(s, i);
    PieceAt(s, i, j);
    piece := Some(s[i..j]);
    next := j;
    if j < |s| {
      SkipDelimiter(s, j);
      next := j + 1;
    }
  }

  /** The first loop of `strtok`: past the delimiters from `pos` on, which leaves the
      pieces still to come unchanged. */
  method SkipDelimiters(s: string, pos: nat) returns (i: nat)
    requires pos <= |s|
    ensures pos <= i <= |s| && (i < |s| ==> s[i] !in COMMA)
    ensures Tokens(s[i..], COMMA) == Tokens(s[pos..], COMMA)
  {
    i := pos;
    while i < |s| && s[i] == ','
      invariant pos <= i <= |s|
      invariant Tokens(s[i..], COMMA) == Tokens(s[pos..], COMMA)
    {
      SkipDelimiter(s, i);
      i := i + 1;
    }
  }

  /** The second loop of `strtok`: the end of the run of non-delimiters that starts at
      `i`. */
  method PieceEnd(s: string, i: nat) returns (j: nat)
    requires i < |s| && s[i] !in COMMA
    ensures i < j <= |s| && (j < |s| ==> s[j] in COMMA)
    ensures forall k :: i <= k < j ==> s[k] !in COMMA
  {
    j := i + 1;
    while j < |s| && s[j] != ','
      invariant i < j <= |s|
      invariant forall k :: i <= k < j ==> s[k] !in COMMA
    {
      j := j + 1;
    }
  }

  // ---------------------------------------------------------------------------
  // The settings every camera receives

  /** The text of a text field ("" for an int field, which a well-typed record never
      has where a text is read). */
  function TextOf(v: Value): string
  {
    if v.TextValue? then v.text else ""
  }

  /** The number in an int field (0 for a text field, likewise never read). */
  function IntOf(v: Value): int
  {
    if v.IntValue? then v.n else 0
  }

  /** The pieces of a comma-separated list field: `strtok` works on the field's C string. */
  function ListOf(v: Value): seq<string>
  {
    Tokens(CString(TextOf(v)), COMMA)
  }

  function Videos(slots: seq<Value>): seq<string>
    requires |slots| == FIELD_COUNT
  {
    ListOf(slots[INPUT_VIDEO_NAME_LIST])
  }

  function CameraIds(slots: seq<Value>): seq<string>
    requires |slots| == FIELD_COUNT
  {
    ListOf(slots[INPUT_CAMERA_ID_LIST])
  }

  /** A flag field turns its setting on only when it holds exactly 1. */
  predicate Enabled(v: Value)
  {
    IntOf(v) == 1
  }

  /** A camera state after the settings of `slots` are applied to it: the output
      directory, the training frames and the five module names are replaced, and display
      and down-scaling are switched on when their field is 1 (and never switched off).
      Saving is on in every camera (`Camera.Valid`), so its field changes nothing. */
  function WithSettings(st: CameraState, slots: seq<Value>): CameraState
    requires |slots| == FIELD_COUNT
  {
    st.(outputDirectory := CString(TextOf(slots[OUTPUT_VIDEO_DIRECTORY])),
        display := Enabled(slots[DISPLAY_INTERMEDIATE_RESULT]) || st.display,
        downScale := Enabled(slots[DOWN_SCALE_IMAGE]) || st.downScale,
        fgTrainFrames := IntOf(slots[FG_TRAIN_FRAMES]),
        fgName := CString(TextOf(slots[FOREGROUND_DETECTOR_MODULE])),
        bdName := CString(TextOf(slots[BLOB_DETECTOR_MODULE])),
        btName := CString(TextOf(slots[BLOB_TRACKER_MODULE])),
        baName := CString(TextOf(slots[BLOB_ANALYSIS_MODULE])),
        bpName := CString(TextOf(slots[BLOB_PROCESSING_MODULE])))
  }

  /** The state camera `id` is in when `Initialize` is called on it. */
  function Prepared(slots: seq<Value>, id: int): CameraState
    requires |slots| == FIELD_COUNT
  {
    WithSettings(Fresh.(cameraId := id), slots)
  }

  /** A new camera keeps only what the settings say: display and down-scaling are on
      exactly when their fields are 1, and saving is on whatever its field holds. */
  lemma PreparedFlags(slots: seq<Value>, id: int)
    requires |slots| == FIELD_COUNT
    ensures var st := Prepared(slots, id);
            && st.cameraId == id
            && (st.display <==> IntOf(slots[DISPLAY_INTERMEDIATE_RESULT]) == 1)
            && (st.downScale <==> IntOf(slots[DOWN_SCALE_IMAGE]) == 1)
            && st.save
            && !st.initialized && st.tracker.None?
  {
  }

  /** The state a camera prepared as `p` is in after a successful `Initialize`. */
  predicate Ready(st: CameraState, p: CameraState)
  {
    st == p.(initialized := true, recordOpen := true, handles := st.handles,
             tracker := Some(AutoParams(p.fgTrainFrames, st.handles, false)))
  }

  /** The outcome of `Initialize` on camera `k` (which has an ID when `k` is below the
      number of IDs). */
  function CameraOutcome(slots: seq<Value>, ioOf: nat -> Devices, k: nat): (r: Status)
    requires |slots| == FIELD_COUNT
    ensures k >= |CameraIds(slots)| ==> r == Aborted
    ensures r == Done ==> ioOf(k).videoOpens && ioOf(k).recordOpens
  {
    if k < |CameraIds(slots)| then InitOutcome(Prepared(slots, Atoi(CameraIds(slots)[k])), ioOf(k))
    else Aborted
  }

  function Outcomes(slots: seq<Value>, ioOf: nat -> Devices): nat -> Status
    requires |slots| == FIELD_COUNT
  {
    (k: nat) => CameraOutcome(slots, ioOf, k)
  }

  /** The first outcome other than `Done` among `outcomeOf(i)`, ..., `outcomeOf(n - 1)`,
      or `Done`: set-ups run in order and the first failure ends the program. */
  function FirstFailure(outcomeOf: nat -> Status, i: nat, n: nat): (r: Status)
    ensures r != Done ==> exists k :: i <= k < n && outcomeOf(k) == r
    decreases n - i
  {
    if i >= n then Done
    else if outcomeOf(i) != Done then outcomeOf(i)
    else FirstFailure(outcomeOf, i + 1, n)
  }

  lemma {:induction false} FirstFailureDone(outcomeOf: nat -> Status, i: nat, n: nat)
    ensures FirstFailure(outcomeOf, i, n) == Done <==> forall k :: i <= k < n ==> outcomeOf(k) == Done
    decreases n - i
  {
    if i < n {
      FirstFailureDone(outcomeOf, i + 1, n);
    }
  }

  /** How `InitializeInputOutputSettings` ends; `ioOf(i)` says which devices of camera
      `i` open. Fewer IDs than videos aborts. */
  function SetupOutcome(slots: seq<Value>, ioOf: nat -> Devices): (r: Status)
    requires |slots| == FIELD_COUNT
    ensures r == Done ==> |CameraIds(slots)| >= |Videos(slots)|
    ensures r != Done && |CameraIds(slots)| >= |Videos(slots)| ==>
              exists k :: 0 <= k < |Videos(slots)| && CameraOutcome(slots, ioOf, k) == r
  {
    if |CameraIds(slots)| < |Videos(slots)| then Aborted
    else FirstFailure(Outcomes(slots, ioOf), 0, |Videos(slots)|)
  }

  /** The set-up succeeds exactly when there is an ID for every video and every camera's
      `Initialize` succeeds; extra IDs are ignored. */
  lemma SetupSucceeds(slots: seq<Value>, ioOf: nat -> Devices)
    requires |slots| == FIELD_COUNT
    ensures SetupOutcome(slots, ioOf) == Done <==>
            && |CameraIds(slots)| >= |Videos(slots)|
            && forall k :: 0 <= k < |Videos(slots)| ==> CameraOutcome(slots, ioOf, k) == Done
  {
    var outcomeOf := Outcomes(slots, ioOf);
    FirstFailureDone(outcomeOf, 0, |Videos(slots)|);
    forall k | 0 <= k < |Videos(slots)|
      ensures outcomeOf(k) == CameraOutcome(slots, ioOf, k)
    {
      OutcomesAt(slots, ioOf, k);
    }
  }

  /** Pointwise reading of `Outcomes`. */
  lemma OutcomesAt(slots: seq<Value>, ioOf: nat -> Devices, k: nat)
    requires |slots| == FIELD_COUNT
    ensures Outcomes(slots, ioOf)(k) == CameraOutcome(slots, ioOf, k)
  {
  }

  predicate Distinct(cameras: seq<Camera>)
  {
    forall i, j :: 0 <= i < j < |cameras| ==> cameras[i] != cameras[j]
  }

  /** The three flags of the settings loop, each enabled only when its field is 1; the
      save flag is on already. */
  method ApplyFlags(c: Camera, slots: seq<Value>)
    requires |slots| == FIELD_COUNT && c.Valid()
    modifies c
    ensures c.Valid() && c.Trace() == old(c.Trace())
    ensures c.State() == old(c.State()).(display := Enabled(slots[DISPLAY_INTERMEDIATE_RESULT]) || old(c.State()).display,
                                          downScale := Enabled(slots[DOWN_SCALE_IMAGE]) || old(c.State()).downScale)
  {
    if IntOf(slots[DISPLAY_INTERMEDIATE_RESULT]) == 1 {
      c.EnableDisplayIntermediateResult();
    }
    if IntOf(slots[SAVE_INTERMEDIATE_RESULT]) == 1 {
      c.EnableSaveIntermediateResult();
    }
    if IntOf(slots[DOWN_SCALE_IMAGE]) == 1 {
      c.EnableOriginalImageDownScale();
    }
  }

  /** The body of the settings loop up to `Initialize`: the output directory, the three
      flags, the training frames and the five module names. */
  method ApplySettings(c: Camera, slots: seq<Value>)
    requires |slots| == FIELD_COUNT && c.Valid()
    modifies c
    ensures c.Valid() && c.Trace() == old(c.Trace())
    ensures c.State() == WithSettings(old(c.State()), slots)
  {
    c.SetVideoOutputDirectory(TextOf(slots[OUTPUT_VIDEO_DIRECTORY]));
    ApplyFlags(c, slots);
    c.SetFGTrainFrame(IntOf(slots[FG_TRAIN_FRAMES]));
    c.SetFgDetectionModule(TextOf(slots[FOREGROUND_DETECTOR_MODULE]));
    c.SetBlobDetectionModule(TextOf(slots[BLOB_DETECTOR_MODULE]));
    c.SetBlobTrackerModule(TextOf(slots[BLOB_TRACKER_MODULE]));
    c.SetBlobAnalysisModule(TextOf(slots[BLOB_ANALYSIS_MODULE]));
    c.SetBlobProcessingModule(TextOf(slots[BLOB_PROCESSING_MODULE]));
  }

  /** The first loop of `InitializeInputOutputSettings`: one new camera per piece of the
      video list, in order, all reading from `directory`. */
  method CreateCameras(directory: string, videoList: string) returns (cameras: seq<Camera>)
    ensures |cameras| == |Tokens(videoList, COMMA)|
    ensures Distinct(cameras)
    ensures forall k :: 0 <= k < |cameras| ==>
              && fresh(cameras[k])
              && cameras[k].videoSourceDirectory == directory
              && cameras[k].videoFileName == Tokens(videoList, COMMA)[k]
              && cameras[k].State() == Fresh && cameras[k].Trace() == Run([], [], [])
  {
    ghost var names := Tokens(videoList, COMMA);
    cameras := [];
    assert videoList[0..] == videoList;
    var piece, pos := NextPiece(videoList, 0);
    while piece.Some?
      invariant pos <= |videoList| && |cameras| <= |names|
      invariant Remaining(videoList, piece, pos) == names[|cameras|..]
      invariant CreatedFrom(cameras, directory, names)
      invariant forall k :: 0 <= k < |cameras| ==> fresh(cameras[k])
      decreases |names| - |cameras|
    {
      NextOfRemaining(names, |cameras|, piece.value, Tokens(videoList[pos..], COMMA));
      cameras := AddCamera(cameras, directory, piece.value, names);
      piece, pos := NextPiece(videoList, pos);
    }
  }

  /** The cameras made so far, one per piece of `names`, are distinct, read from
      `directory` and have nothing set. */
  predicate CreatedFrom(cameras: seq<Camera>, directory: string, names: seq<string>)
    reads set k | 0 <= k < |cameras| :: cameras[k]
  {
    && Distinct(cameras)
    && forall k :: 0 <= k < |cameras| && k < |names| ==>
         && cameras[k].videoSourceDirectory == directory
         && cameras[k].videoFileName == names[k]
         && cameras[k].State() == Fresh && cameras[k].Trace() == Run([], [], [])
  }

  /** One round of the first loop: a new camera for the next piece. */
  method AddCamera(cameras: seq<Camera>, directory: string, name: string, ghost names: seq<string>)
    returns (more: seq<Camera>)
    requires |cameras| < |names| && name == names[|cameras|]
    requires CreatedFrom(cameras, directory, names)
    ensures CreatedFrom(more, directory, names)
    ensures |more| == |cameras| + 1 && more[..|cameras|] == cameras && fresh(more[|cameras|])
  {
    var camera := new Camera(directory, name);
    more := cameras + [camera];
  }

  /** The second loop: camera `i` gets the ID `atoi` reads from the `i`-th piece of the
      ID list; `false` when the list runs out first (where `ASSERT_TRUE` aborts). */
  method AssignIds(cameras: seq<Camera>, idList: string) returns (ok: bool)
    requires Distinct(cameras)
    requires forall k :: 0 <= k < |cameras| ==> cameras[k].State() == Fresh && cameras[k].Trace() == Run([], [], [])
    modifies cameras
    ensures ok == (|Tokens(idList, COMMA)| >= |cameras|)
    ensures ok ==> forall k :: 0 <= k < |cameras| ==>
              && cameras[k].State() == Fresh.(cameraId := Atoi(Tokens(idList, COMMA)[k]))
              && cameras[k].Trace() == Run([], [], [])
  {
    ghost var ids := Tokens(idList, COMMA);
    assert idList[0..] == idList;
    var piece, pos := NextPiece(idList, 0);
    var i := 0;
    while i < |cameras|
      invariant 0 <= i <= |cameras| && pos <= |idList| && i <= |ids|
      invariant Remaining(idList, piece, pos) == ids[i..]
      invariant IdsTo(cameras, i, ids)
    {
      if piece.None? {
        return false;
      }
      NextOfRemaining(ids, i, piece.value, Tokens(idList[pos..], COMMA));
      var id := Atoi(piece.value);
      piece, pos := NextPiece(idList, pos);
      AssignNext(cameras, i, id, ids);
      i := i + 1;
    }
    ok := true;
  }

  /** Every camera has nothing set but its ID, and cameras before `i` have the IDs `atoi`
      reads from the first `i` pieces of the list. */
  predicate IdsTo(cameras: seq<Camera>, i: nat, ids: seq<string>)
    reads set k | 0 <= k < |cameras| :: cameras[k]
  {
    && (forall k :: 0 <= k < |cameras| ==>
          cameras[k].State() == Fresh.(cameraId := cameras[k].cameraId) && cameras[k].Trace() == Run([], [], []))
    && (forall k :: 0 <= k < i && k < |cameras| && k < |ids| ==> cameras[k].cameraId == Atoi(ids[k]))
  }

  /** One round of the second loop. */
  method AssignNext(cameras: seq<Camera>, i: nat, id: int, ghost ids: seq<string>)
    requires Distinct(cameras) && i < |cameras| && i < |ids| && id == Atoi(ids[i])
    requires IdsTo(cameras, i, ids)
    modifies cameras[i]
    ensures IdsTo(cameras, i + 1, ids)
  {
    cameras[i].SetCameraId(id);
  }

  /** The third loop: the settings, then `Initialize`, camera by camera in list order,
      stopping at the first that fails. */
  method SetUpCameras(cameras: seq<Camera>, slots: seq<Value>, ioOf: nat -> Devices,
                      paramsOf: string -> seq<string>) returns (status: Status)
    requires |slots| == FIELD_COUNT && FactoriesOk(paramsOf)
    requires Distinct(cameras) && |CameraIds(slots)| >= |cameras|
    requires forall k :: 0 <= k < |cameras| ==> cameras[k].State() == Fresh.(cameraId := Atoi(CameraIds(slots)[k])) && cameras[k].Trace() == Run([], [], [])
    modifies cameras
    ensures status == FirstFailure(Outcomes(slots, ioOf), 0, |cameras|)
    ensures status == Done ==>
              forall k :: 0 <= k < |cameras| ==> Ready(cameras[k].State(), Prepared(slots, Atoi(CameraIds(slots)[k]))) && cameras[k].Trace() == Run([], [], [])
  {
    ghost var outcomeOf := Outcomes(slots, ioOf);
    status := Done;
    var i := 0;
    while i < |cameras|
      invariant 0 <= i <= |cameras|
      invariant status == Done
      invariant FirstFailure(outcomeOf, 0, |cameras|) == FirstFailure(outcomeOf, i, |cameras|)
      invariant SetUpTo(cameras, slots, i)
    {
      status := SetUpNext(cameras, slots, i, ioOf, paramsOf);
      if status != Done {
        return;
      }
      i := i + 1;
    }
  }

  /** Cameras before `i` are set up, the others are as `AssignIds` left them. */
  predicate SetUpTo(cameras: seq<Camera>, slots: seq<Value>, i: nat)
    requires |slots| == FIELD_COUNT && |cameras| <= |CameraIds(slots)|
    reads set k | 0 <= k < |cameras| :: cameras[k]
  {
    && (forall k :: 0 <= k < i && k < |cameras| ==> Ready(cameras[k].State(), Prepared(slots, Atoi(CameraIds(slots)[k]))) && cameras[k].Trace() == Run([], [], []))
    && (forall k :: i <= k < |cameras| ==> cameras[k].State() == Fresh.(cameraId := Atoi(CameraIds(slots)[k])) && cameras[k].Trace() == Run([], [], []))
  }

  /** One round of the third loop. */
  method SetUpNext(cameras: seq<Camera>, slots: seq<Value>, i: nat, ioOf: nat -> Devices,
                   paramsOf: string -> seq<string>) returns (status: Status)
    requires |slots| == FIELD_COUNT && FactoriesOk(paramsOf)
    requires Distinct(cameras) && i < |cameras| <= |CameraIds(slots)|
    requires SetUpTo(cameras, slots, i)
    modifies cameras[i]
    ensures status == Outcomes(slots, ioOf)(i)
    ensures status == Done ==> SetUpTo(cameras, slots, i + 1)
  {
    status := SetUpCamera(cameras[i], slots, i, ioOf, paramsOf);
    forall k | 0 <= k < |cameras| && k != i
      ensures cameras[k].State() == old(cameras[k].State()) && cameras[k].Trace() == old(cameras[k].Trace())
    {
      assert cameras[k] != cameras[i];
    }
  }

  /** `InitializeInputOutputSettings`: creates one camera per piece of the video list,
      all reading from the input directory; gives each its ID from the ID list (aborting
      when the list runs out); then applies the settings to each camera and initializes
      it, in list order, stopping at the first that fails. */
  method InitializeInputOutputSettings(cfg: ConfigInput, ioOf: nat -> Devices,
                                       paramsOf: string -> seq<string>)
    returns (status: Status, cameras: seq<Camera>)
    requires cfg.Valid() && FactoriesOk(paramsOf)
    ensures status == SetupOutcome(cfg.slots, ioOf)
    ensures |cameras| == |Videos(cfg.slots)|
    ensures Distinct(cameras)
    ensures forall i :: 0 <= i < |cameras| ==>
              && fresh(cameras[i])
              && cameras[i].videoSourceDirectory == CString(TextOf(cfg.slots[INPUT_VIDEO_DIRECTORY]))
              && cameras[i].videoFileName == Videos(cfg.slots)[i]
    ensures status == Done ==> |CameraIds(cfg.slots)| >= |cameras|
    ensures status == Done ==>
              forall i :: 0 <= i < |cameras| ==>
                && Ready(cameras[i].State(), Prepared(cfg.slots, Atoi(CameraIds(cfg.slots)[i])))
                && cameras[i].Trace() == Run([], [], [])
  {
    var slots := cfg.slots;
    cameras := CreateCameras(CString(TextOf(slots[INPUT_VIDEO_DIRECTORY])),
                             CString(TextOf(slots[INPUT_VIDEO_NAME_LIST])));
    var ok := AssignIds(cameras, CString(TextOf(slots[INPUT_CAMERA_ID_LIST])));
    if !ok {
      return Aborted, cameras;
    }
    status := SetUpCameras(cameras, slots, ioOf, paramsOf);
  }

  /** The body of the settings loop for camera `k`: the settings, then `Initialize` with
      the five parameter texts. */
  method SetUpCamera(c: Camera, slots: seq<Value>, k: nat, ioOf: nat -> Devices,
                     paramsOf: string -> seq<string>) returns (status: Status)
    requires |slots| == FIELD_COUNT && FactoriesOk(paramsOf) && k < |CameraIds(slots)|
    requires c.State() == Fresh.(cameraId := Atoi(CameraIds(slots)[k]))
    modifies c
    ensures status == CameraOutcome(slots, ioOf, k)
    ensures status == Done ==>
              && Ready(c.State(), Prepared(slots, Atoi(CameraIds(slots)[k])))
              && c.Trace() == old(c.Trace()).(record := [])
  {
    ApplySettings(c, slots);
    ghost var ms: Modules;
    status, ms := c.Initialize(TextOf(slots[FG_DETECTION_PARAMS]), TextOf(slots[BLOB_DETECTION_PARAMS]),
                               TextOf(slots[BLOB_TRACKER_PARAMS]), TextOf(slots[BLOB_ANALYSIS_PARAMS]),
                               TextOf(slots[BLOB_POSTPROC_PARAMS]), ioOf(k), paramsOf);
  }

  // ---------------------------------------------------------------------------
  // main

  /** The last frame `Process` is asked for: `start + count` when the frame count is
      positive, otherwise -1 (no limit). */
  function EndFrameIndex(start: int, count: int): (e: int)
    ensures count > 0 ==> e - start == count
    ensures count <= 0 ==> e < 0
  {
    if count > 0 then start + count else -1
  }

  /** With a positive frame count, every grab succeeding and no ESC, the frames processed
      are `start` (or 1) to `start + count`, both included: `count + 1` frames when
      `start` is at least 1. */
  lemma CountedFrames(start: int, count: int, grabs: seq<bool>, keys: seq<int>, linesOf: int -> seq<string>)
    requires count > 0 && start + count >= 0
    requires forall i :: 0 <= i < start + count ==> GrabAt(grabs, i) && KeyAt(keys, i) != ESC
    ensures var p := Loop(0, false, start, EndFrameIndex(start, count), grabs, keys, linesOf).processed;
            && p == Range(if start > 1 then start else 1, start + count + 1)
            && (start >= 1 ==> |p| == count + 1)
  {
    FullRun(0, false, start, start + count, grabs, keys, linesOf);
    if start >= 1 {
      RangeLength(start, start + count + 1);
    }
  }

  /** With no positive frame count, every grab succeeding and no ESC, every frame of the
      video from `start` (or 1) on is processed. */
  lemma UncountedFrames(start: int, count: int, grabs: seq<bool>, keys: seq<int>, linesOf: int -> seq<string>)
    requires count <= 0
    requires forall i :: 0 <= i < |grabs| ==> grabs[i] && KeyAt(keys, i) != ESC
    ensures Loop(0, false, start, EndFrameIndex(start, count), grabs, keys, linesOf).processed
            == Range(if start > 1 then start else 1, |grabs| + 1)
  {
    OpenEndedRun(0, false, start, -1, grabs, keys, linesOf);
  }

  /** The processing loop of `main`: `Process` on each camera in list order. */
  method ProcessAll(cameras: seq<Camera>, start: int, end: int, downScale: bool,
                    grabsOf: nat -> seq<bool>, keysOf: nat -> seq<int>, blobsOf: nat -> int -> seq<Blob>)
    requires Distinct(cameras)
    requires forall k :: 0 <= k < |cameras| ==>
               && cameras[k].initialized && cameras[k].tracker.Some?
               && cameras[k].downScaleImage == downScale && cameras[k].Trace() == Run([], [], [])
    modifies cameras
    ensures forall k :: 0 <= k < |cameras| ==>
              cameras[k].Trace() == Loop(0, false, start, end, grabsOf(k), keysOf(k), RecordOf(blobsOf(k), downScale))
  {
    ghost var runs := seq(|cameras|, k requires 0 <= k < |cameras| =>
                            Loop(0, false, start, end, grabsOf(k), keysOf(k), RecordOf(blobsOf(k), downScale)));
    var i := 0;
    while i < |cameras|
      invariant 0 <= i <= |cameras|
      invariant ProcessedTo(cameras, i, downScale, runs)
    {
      ProcessNext(cameras, i, start, end, downScale, grabsOf(i), keysOf(i), blobsOf(i), runs);
      i := i + 1;
    }
  }

  /** Cameras before `i` have run their frame loop, leaving `runs[k]` behind; the others
      are still waiting for it. */
  predicate ProcessedTo(cameras: seq<Camera>, i: nat, downScale: bool, runs: seq<Run>)
    reads set k | 0 <= k < |cameras| :: cameras[k]
  {
    && |runs| == |cameras|
    && (forall k :: 0 <= k < i && k < |cameras| ==> cameras[k].Trace() == runs[k])
    && (forall k :: i <= k < |cameras| ==>
          && cameras[k].initialized && cameras[k].tracker.Some?
          && cameras[k].downScaleImage == downScale && cameras[k].Trace() == Run([], [], []))
  }

  /** One round of the processing loop. */
  method ProcessNext(cameras: seq<Camera>, i: nat, start: int, end: int, downScale: bool,
                     grabs: seq<bool>, keys: seq<int>, blobsOf: int -> seq<Blob>, ghost runs: seq<Run>)
    requires Distinct(cameras) && i < |cameras|
    requires ProcessedTo(cameras, i, downScale, runs)
    requires runs[i] == Loop(0, false, start, end, grabs, keys, RecordOf(blobsOf, downScale))
    modifies cameras[i]
    ensures ProcessedTo(cameras, i + 1, downScale, runs)
  {
    ProcessCamera(cameras[i], start, end, downScale, grabs, keys, blobsOf);
  }

  /** One round of the processing loop: `Process` on a camera that is initialized and
      has recorded nothing yet. */
  method ProcessCamera(c: Camera, start: int, end: int, downScale: bool,
                       grabs: seq<bool>, keys: seq<int>, blobsOf: int -> seq<Blob>)
    requires c.initialized && c.tracker.Some? && c.downScaleImage == downScale
    requires c.Trace() == Run([], [], [])
    modifies c
    ensures c.Trace() == Loop(0, false, start, end, grabs, keys, RecordOf(blobsOf, downScale))
  {
    var _ := c.Process(start, end, grabs, keys, blobsOf);
    ghost var r := Loop(0, false, start, end, grabs, keys, RecordOf(blobsOf, downScale));
    assert c.record == r.record && c.waits == r.waits && c.processed == r.processed;
  }

  /** What a camera prepared as `p` and then initialized holds in the fields `Process`
      reads. */
  lemma ReadyFields(st: CameraState, p: CameraState)
    requires Ready(st, p)
    ensures st.initialized && st.tracker.Some? && st.downScale == p.downScale
  {
  }

  /** `main`: reads the configuration (a non-zero result aborts), sets up every camera,
      then runs `Process` on each camera in list order with the configured start frame
      and `EndFrameIndex`. Camera `i` reads the grabs `grabsOf(i)`, the keys `keysOf(i)`
      and its tracker reports the blobs `blobsOf(i)`. */
  method RunProgram(av: seq<string>, files: map<string, string>, cfg: ConfigInput,
                    ioOf: nat -> Devices, paramsOf: string -> seq<string>,
                    grabsOf: nat -> seq<bool>, keysOf: nat -> seq<int>, blobsOf: nat -> int -> seq<Blob>)
    returns (status: Status, cameras: seq<Camera>)
    requires forall k :: 0 <= k < |av| ==> NulFree(av[k])
    requires Configured(av, files).Some?
    requires cfg.Valid() && FactoriesOk(paramsOf)
    modifies cfg
    ensures cfg.Valid() && cfg.slots == Configured(av, files).value.slots
    ensures status == (if Configured(av, files).value.status != 0 then Aborted
                       else SetupOutcome(cfg.slots, ioOf))
    ensures status == Done ==>
              var start := IntOf(cfg.slots[START_FRAME_INDEX]);
              var end := EndFrameIndex(start, IntOf(cfg.slots[NUMBER_OF_FRAMES]));
              var downScale := Enabled(cfg.slots[DOWN_SCALE_IMAGE]);
              && |cameras| == |Videos(cfg.slots)|
              && forall i :: 0 <= i < |cameras| ==>
                   cameras[i].Trace() == Loop(0, false, start, end, grabsOf(i), keysOf(i),
                                              RecordOf(blobsOf(i), downScale))
  {
    var result := Configure(av, files, cfg);
    if result != 0 {
      return Aborted, [];
    }
    status, cameras := RunCameras(cfg, ioOf, paramsOf, grabsOf, keysOf, blobsOf);
  }

  /** The part of `main` after the configuration is read: the set-up, then the frame
      loop of every camera. */
  method RunCameras(cfg: ConfigInput, ioOf: nat -> Devices, paramsOf: string -> seq<string>,
                    grabsOf: nat -> seq<bool>, keysOf: nat -> seq<int>, blobsOf: nat -> int -> seq<Blob>)
    returns (status: Status, cameras: seq<Camera>)
    requires cfg.Valid() && FactoriesOk(paramsOf)
    ensures status == SetupOutcome(cfg.slots, ioOf)
    ensures status == Done ==>
              var start := IntOf(cfg.slots[START_FRAME_INDEX]);
              var end := EndFrameIndex(start, IntOf(cfg.slots[NUMBER_OF_FRAMES]));
              var downScale := Enabled(cfg.slots[DOWN_SCALE_IMAGE]);
              && |cameras| == |Videos(cfg.slots)|
              && forall i :: 0 <= i < |cameras| ==>
                   cameras[i].Trace() == Loop(0, false, start, end, grabsOf(i), keysOf(i),
                                              RecordOf(blobsOf(i), downScale))
  {
    status, cameras := InitializeInputOutputSettings(cfg, ioOf, paramsOf);
    if status != Done {
      return;
    }
    var start := IntOf(cfg.slots[START_FRAME_INDEX]);
    var end := EndFrameIndex(start, IntOf(cfg.slots[NUMBER_OF_FRAMES]));
    var downScale := Enabled(cfg.slots[DOWN_SCALE_IMAGE]);
    forall k | 0 <= k < |cameras|
      ensures cameras[k].initialized && cameras[k].tracker.Some? && cameras[k].downScaleImage == downScale
    {
      ReadyFields(cameras[k].State(), Prepared(cfg.slots, Atoi(CameraIds(cfg.slots)[k])));
    }
    ProcessAll(cameras, start, end, downScale, grabsOf, keysOf, blobsOf);
  }
}
