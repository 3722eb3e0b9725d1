/** The configuration schema (the `Map[]` table), the global parameter record that the
    parser fills (`g_configInput`), the name lookup and the defaults. */
module Config {
  import opened CText

  /** Longest text value a record field holds (`char[STRING_SIZE]`). */
  const STRING_SIZE: nat := 1000
  /** Capacity of the parser's token list. */
  const MAX_ITEMS_TO_PARSE: nat := 10000
  /** Largest configuration file the reader accepts, in bytes. */
  const MAX_CONFIG_FILE_SIZE: nat := 60000
  const DEFAULT_CONFIG_FILE_NAME: string := "config.cfg"

  /** `m_type`: 0 for int, 1 for text. No schema entry uses the double type. */
  datatype Kind = IntKind | TextKind

  /** `m_paramLimit`: declared by the schema, never enforced by the parser. */
  datatype LimitPolicy = NoLimit | BothLimits | MinimumOnly | SpecialLimit

  /** One row of `Map[]`: name in the file, value type, default, limit policy and bounds.
      Every default and bound in the table is a whole number. */
  datatype Entry = Entry(name: string, kind: Kind, defaultValue: int,
                         limit: LimitPolicy, minLimit: int, maxLimit: int)

  /** A field of the parameter record. */
  datatype Value = IntValue(n: int) | TextValue(text: string)

  predicate Fits(v: Value, k: Kind)
  {
    match k
    case IntKind => v.IntValue?
    case TextKind => v.TextValue?
  }

  // Positions of the record fields in `Map`.
  const INPUT_VIDEO_DIRECTORY: nat := 0
  const INPUT_VIDEO_NAME_LIST: nat := 1
  const INPUT_CAMERA_ID_LIST: nat := 2
  const START_FRAME_INDEX: nat := 3
  const NUMBER_OF_FRAMES: nat := 4
  const OUTPUT_VIDEO_DIRECTORY: nat := 5
  const LOG_FILE_NAME: nat := 6
  const DISPLAY_INTERMEDIATE_RESULT: nat := 7
  const SAVE_INTERMEDIATE_RESULT: nat := 8
  const DOWN_SCALE_IMAGE: nat := 9
  const FOREGROUND_DETECTOR_MODULE: nat := 10
  const BLOB_DETECTOR_MODULE: nat := 11
  const BLOB_TRACKER_MODULE: nat := 12
  const BLOB_PROCESSING_MODULE: nat := 13
  const BLOB_ANALYSIS_MODULE: nat := 14
  const FG_TRAIN_FRAMES: nat := 15
  const FG_DETECTION_PARAMS: nat := 16
  const BLOB_DETECTION_PARAMS: nat := 17
  const BLOB_TRACKER_PARAMS: nat := 18
  const BLOB_ANALYSIS_PARAMS: nat := 19
  const BLOB_POSTPROC_PARAMS: nat := 20

  /** The number of fields in the record: one per row of `Map`. */
  const FIELD_COUNT: nat := 21

  /** The schema, in table order (the NULL terminator row is the end of the sequence). */
  const Map: seq<Entry> := [
    Entry("Input_Video_Directory",       TextKind, 0, NoLimit,     0, 0),
    Entry("Input_Video_Name_List",       TextKind, 0, NoLimit,     0, 0),
    Entry("Input_Camera_ID_List",        TextKind, 0, NoLimit,     0, 0),
    Entry("Start_Frame_Index",           IntKind,  0, MinimumOnly, 0, 0),
    Entry("Number_Of_Frames",            IntKind,  0, MinimumOnly, 0, 0),
    Entry("OutPut_Video_Directory",      TextKind, 0, NoLimit,     0, 0),
    Entry("Log_File_Name",               TextKind, 0, NoLimit,     0, 0),
    Entry("Display_Intermediate_Result", IntKind,  0, BothLimits,  0, 1),
    Entry("Save_Intermediate_Result",    IntKind,  0, BothLimits,  0, 1),
    Entry("Down_Scale_Image",            IntKind,  0, BothLimits,  0, 1),
    Entry("Foreground_Detector_Module",  TextKind, 0, NoLimit,     0, 0),
    Entry("Blob_Detector_Module",        TextKind, 0, NoLimit,     0, 0),
    Entry("Blob_Tracker_Module",         TextKind, 0, NoLimit,     0, 0),
    Entry("Blob_Processing_Module",      TextKind, 0, NoLimit,     0, 0),
    Entry("Blob_Analysis_Module",        TextKind, 0, NoLimit,     0, 0),
    Entry("FG_Train_Frames",             IntKind,  2, MinimumOnly, 1, 0),
    Entry("FG_Detection_Params",         TextKind, 0, NoLimit,     0, 0),
    Entry("Blob_Detection_Params",       TextKind, 0, NoLimit,     0, 0),
    Entry("Blob_Tracker_Params",         TextKind, 0, NoLimit,     0, 0),
    Entry("Blob_Analysis_Params",        TextKind, 0, NoLimit,     0, 0),
    Entry("Blob_PostProc_Params",        TextKind, 0, NoLimit,     0, 0)
  ]

  /** A position in `Map`, and so a field of the record. */
  type FieldIndex = i: nat | i < |Map|

  /** A sequence of record fields laid out as `Map` says. */
  predicate WellTyped(slots: seq<Value>)
  {
    |slots| == |Map| && forall i :: 0 <= i < |slots| ==> Fits(slots[i], Map[i].kind)
  }

  /** Storing a value of the right type into a field keeps the record well typed. */
  lemma StoreKeepsTyped(slots: seq<Value>, idx: nat, v: Value)
    requires WellTyped(slots) && idx < |Map| && Fits(v, Map[idx].kind)
    ensures WellTyped(slots[idx := v])
  {
  }

  /** The record as static storage (and `memset`) leaves it: every int 0, every text "". */
  function Zeroed(): (slots: seq<Value>)
    ensures WellTyped(slots)
  {
    seq(|Map|, i requires 0 <= i < |Map| =>
      match Map[i].kind
      case IntKind => IntValue(0)
      case TextKind => TextValue(""))
  }

  /** The value `InitParams` gives the field of entry `e`. */
  function DefaultOf(e: Entry): Value
  {
    match e.kind
    case IntKind => IntValue(e.defaultValue)
    case TextKind => TextValue("")
  }

  /** The record after `InitParams`. */
  function Defaults(): (slots: seq<Value>)
    ensures WellTyped(slots)
  {
    seq(|Map|, i requires 0 <= i < |Map| => DefaultOf(Map[i]))
  }

  /** The global parameter record `g_configInput`. The parser addresses its fields by
      their position in `Map` (`Map[i].m_pPosition`), so the fields are kept in that order. */
  class ConfigInput {
    var slots: seq<Value>

    ghost predicate Valid()
      reads this
    {
      WellTyped(slots)
    }

    /** Static storage: all fields zero. */
    constructor ()
      ensures Valid() && slots == Zeroed()
    {
      slots := Zeroed();
    }

    function IntAt(i: nat): int
      reads this
      requires Valid() && i < |Map| && Map[i].kind == IntKind
    {
      slots[i].n
    }

    function TextAt(i: nat): string
      reads this
      requires Valid() && i < |Map| && Map[i].kind == TextKind
    {
      slots[i].text
    }
  }

  /** Index of the first entry of `table` at or after `from` whose name equals `s`
      ignoring case, or -1 (`FirstNameMatchIsFirst` says so). */
  function FirstNameMatch(table: seq<Entry>, s: string, from: nat): (idx: int)
    requires from <= |table|
    ensures idx == -1 || from <= idx < |table|
    decreases |table| - from
  {
    if from == |table| then -1
    else if StrCaseEq(table[from].name, s) then from
    else FirstNameMatch(table, s, from + 1)
  }

  /** `FirstNameMatch` finds the first entry whose name matches, and -1 exactly when no
      entry from `from` on matches. */
  lemma {:induction false} FirstNameMatchIsFirst(table: seq<Entry>, s: string, from: nat)
    requires from <= |table|
    ensures var idx := FirstNameMatch(table, s, from);
            && (idx >= 0 ==> EqualIgnoringCase(table[idx].name, s))
            && (idx >= 0 ==> forall k :: from <= k < idx ==> !EqualIgnoringCase(table[k].name, s))
            && (idx == -1 <==> forall k :: from <= k < |table| ==> !EqualIgnoringCase(table[k].name, s))
    decreases |table| - from
  {
    if from < |table| {
      StrCaseEqIff(table[from].name, s);
      if !StrCaseEq(table[from].name, s) {
        FirstNameMatchIsFirst(table, s, from + 1);
      }
    }
  }

  /** Which `Map` entry a parameter name in the file selects. */
  function MapIndexOf(s: string): (idx: int)
    ensures idx == -1 || 0 <= idx < |Map|
  {
    FirstNameMatch(Map, s, 0)
  }

  /** `ParameterNameToMapIndex`: linear scan of `Map` with `strcasecmp`. */
  method ParameterNameToMapIndex(s: string) returns (idx: int)
    ensures idx == MapIndexOf(s)
  {
    var i := 0;
    while i < |Map|
      invariant 0 <= i <= |Map|
      invariant FirstNameMatch(Map, s, i) == FirstNameMatch(Map, s, 0)
    {
      if StrCaseEq(Map[i].name, s) {
        return i;
      }
      i := i + 1;
    }
    return -1;
  }

  /** `InitParams`: every int field gets its default, every text field "". Returns -1,
      as the source does, whatever happens. */
  method InitParams(cfg: ConfigInput) returns (r: int)
    requires cfg.Valid()
    modifies cfg
    ensures cfg.Valid() && cfg.slots == Defaults()
    ensures r == -1
  {
    var i := 0;
    while i < |Map|
      invariant 0 <= i <= |Map|
      invariant |cfg.slots| == |Map|
      invariant forall k :: 0 <= k < i ==> cfg.slots[k] == DefaultOf(Map[k])
    {
      cfg.slots := cfg.slots[i := DefaultOf(Map[i])];
      i := i + 1;
    }
    r := -1;
  }

  /** The defaults in words: FG_Train_Frames starts at 2, every other int at 0, every
      text field empty. */
  lemma DefaultValues(i: nat)
    requires i < |Map|
    ensures Map[i].kind == TextKind ==> Defaults()[i] == TextValue("")
    ensures i == FG_TRAIN_FRAMES ==> Defaults()[i] == IntValue(2)
    ensures Map[i].kind == IntKind && i != FG_TRAIN_FRAMES ==> Defaults()[i] == IntValue(0)
  {
  }
}
