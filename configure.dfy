/** `Configure`: the defaults, the configuration file chosen by `-d`, then the `-p` groups
    of the command line, each rewritten into a text and fed through the same parser. */
module ConfigArgs {
  import opened CText
  import opened Config
  import opened ConfigParse
  import opened ConfigFormat

  /** What `ParseContent` does to the record with a given content. */
  function ParseText(text: string, slots: seq<Value>): (r: Parsed)
    requires Parsable(text) && |slots| == |Map|
    ensures |r.slots| == |Map| && (r.status == 0 || r.status == -1)
  {
    Interpret(Lex(text), 0, slots)
  }

  /** An argument that `strncmp(arg, "-x", 2)` finds to begin with `-x`. */
  predicate Flag(arg: string, x: char)
  {
    StartsWith(arg, ['-', x])
  }

  /** An argument that ends a `-p` group: its first character is '-'. */
  predicate Dashed(arg: string)
  {
    |arg| > 0 && arg[0] == '-'
  }

  /** Index of the first argument at or after `i` that begins with '-', or `|av|`. */
  function GroupEnd(av: seq<string>, i: nat): (e: nat)
    requires i <= |av|
    ensures i <= e <= |av|
    ensures forall k :: i <= k < e ==> !Dashed(av[k])
    ensures e < |av| ==> Dashed(av[e])
    decreases |av| - i
  {
    if i == |av| || Dashed(av[i]) then i else GroupEnd(av, i + 1)
  }

  /** What one character of a `-p` argument becomes: '=' gets a blank on each side. */
  function Piece(c: char): string
  {
    if c == '=' then " = " else [c]
  }

  /** One `-p` argument as it is copied into the group buffer. */
  function ExpandArg(a: string): (r: string)
    ensures |a| <= |r|
  {
    if a == [] then [] else ExpandArg(a[..|a| - 1]) + Piece(a[|a| - 1])
  }

  /** A `-p` group as it is copied into the group buffer: the arguments one after the
      other, with nothing between them. */
  function Expand(args: seq<string>): (r: string)
    ensures |args| == 1 ==> r == ExpandArg(args[0])
  {
    if args == [] then [] else Expand(args[..|args| - 1]) + ExpandArg(args[|args| - 1])
  }

  function EqCount(a: string): nat
  {
    if a == [] then 0 else EqCount(a[..|a| - 1]) + (if a[|a| - 1] == '=' then 1 else 0)
  }

  function SumLen(args: seq<string>): nat
  {
    if args == [] then 0 else SumLen(args[..|args| - 1]) + |args[|args| - 1]|
  }

  function EqTotal(args: seq<string>): nat
  {
    if args == [] then 0 else EqTotal(args[..|args| - 1]) + EqCount(args[|args| - 1])
  }

  /** The size of the group buffer as the source allocates it: the lengths of the
      arguments plus 1000. */
  function SourceBufferSize(args: seq<string>): nat
  {
    SumLen(args) + 1000
  }

  /** The size of the group buffer in this model: two more characters for each '=', which
      the copy widens to " = ". */
  function GroupBufferSize(args: seq<string>): nat
  {
    SumLen(args) + 2 * EqTotal(args) + 1000
  }

  lemma {:induction false} ExpandArgLength(a: string)
    ensures |ExpandArg(a)| == |a| + 2 * EqCount(a)
    decreases |a|
  {
    if a != [] {
      ExpandArgLength(a[..|a| - 1]);
    }
  }

  lemma {:induction false} ExpandLength(args: seq<string>)
    ensures |Expand(args)| == SumLen(args) + 2 * EqTotal(args)
    decreases |args|
  {
    if args != [] {
      ExpandLength(args[..|args| - 1]);
      ExpandArgLength(args[|args| - 1]);
    }
  }

  /** The expanded group and its terminating NUL fit in the buffer this model allocates. */
  lemma GroupBufferFits(args: seq<string>)
    ensures |Expand(args)| + 1 <= GroupBufferSize(args)
  {
    ExpandLength(args);
  }

  /** The buffer the source allocates is too small once a group holds 500 '=' signs: one
      argument of 500 '=' needs 1501 characters and gets 1500. */
  lemma SourceBufferOverflows()
    ensures var args := [seq(500, _ => '=')];
            SourceBufferSize(args) == 1500 && |Expand(args)| + 1 == 1501
  {
    var a := seq(500, _ => '=');
    assert forall k :: 0 <= k <= 500 ==> EqCount(a[..k]) == k by {
      forall k | 0 <= k <= 500
        ensures EqCount(a[..k]) == k
      {
        EqCountAllEq(a, k);
      }
    }
    assert a[..500] == a;
    assert [a][..0] == [];
    ExpandLength([a]);
  }

  lemma {:induction false} EqCountAllEq(a: string, k: nat)
    requires k <= |a| && forall j :: 0 <= j < |a| ==> a[j] == '='
    ensures EqCount(a[..k]) == k
    decreases k
  {
    if k > 0 {
      assert a[..k][..k - 1] == a[..k - 1];
      EqCountAllEq(a, k - 1);
    }
  }

  lemma {:induction false} ExpandArgAppend(a: string, b: string)
    ensures ExpandArg(a + b) == ExpandArg(a) + ExpandArg(b)
    decreases |b|
  {
    if b == [] {
      assert a + b == a;
    } else {
      var b' := b[..|b| - 1];
      assert (a + b)[..|a + b| - 1] == a + b';
      ExpandArgAppend(a, b');
    }
  }

  lemma {:induction false} ExpandAppend(xs: seq<string>, ys: seq<string>)
    ensures Expand(xs + ys) == Expand(xs) + Expand(ys)
    decreases |ys|
  {
    if ys == [] {
      assert xs + ys == xs;
    } else {
      var ys' := ys[..|ys| - 1];
      var last := ExpandArg(ys[|ys| - 1]);
      var zs := xs + ys;
      assert zs[..|zs| - 1] == xs + ys' && zs[|zs| - 1] == ys[|ys| - 1];
      ExpandAppend(xs, ys');
      calc {
        Expand(zs);
        Expand(xs + ys') + last;
        (Expand(xs) + Expand(ys')) + last;
        { assert (Expand(xs) + Expand(ys')) + last == Expand(xs) + (Expand(ys') + last); }
        Expand(xs) + (Expand(ys') + last);
        Expand(xs) + Expand(ys);
      }
    }
  }

  /** An argument without '=' is copied as it is. */
  lemma {:induction false} ExpandArgPlain(a: string)
    requires forall k :: 0 <= k < |a| ==> a[k] != '='
    ensures ExpandArg(a) == a
    decreases |a|
  {
    if a != [] {
      ExpandArgPlain(a[..|a| - 1]);
    }
  }

  /** `-p name=value` becomes `name = value`, which the parser reads as one triple. */
  lemma ExpandSetting(name: string, value: string)
    requires forall k :: 0 <= k < |name| ==> name[k] != '='
    requires forall k :: 0 <= k < |value| ==> value[k] != '='
    ensures Expand([name + "=" + value]) == name + " = " + value
  {
    ExpandArgAppend(name + "=", value);
    ExpandArgAppend(name, "=");
    ExpandArgPlain(name);
    ExpandArgPlain(value);
    assert ExpandArg("=") == " = " by {
      assert "="[..0] == [];
    }
    assert [name + "=" + value][..0] == [];
  }

  /** Two settings in one `-p` group run together: `-p A=1 B=2` becomes `A = 1B = 2`, so
      the first value swallows the second name. */
  lemma GroupArgumentsRunTogether()
    ensures Expand(["A=1", "B=2"]) == "A = 1B = 2"
  {
    ExpandSetting("A", "1");
    ExpandSetting("B", "2");
    assert "A" + "=" + "1" == "A=1" && "B" + "=" + "2" == "B=2";
    assert "A" + " = " + "1" + ("B" + " = " + "2") == "A = 1B = 2";
    ExpandAppend(["A=1"], ["B=2"]);
    assert ["A=1", "B=2"] == ["A=1"] + ["B=2"];
  }

  // ---------------------------------------------------------------------------
  // The whole of `Configure`, stated as a function

  /** The configuration file: `av[2]` when there are at least three arguments and
      `av[1]` begins with "-d", else "config.cfg". */
  function ConfigFileName(av: seq<string>): string
  {
    if |av| >= 3 && Flag(av[1], 'd') then av[2] else DEFAULT_CONFIG_FILE_NAME
  }

  /** Where the scan of `-p` / `-h` arguments starts. */
  function FirstOption(av: seq<string>): nat
  {
    if |av| >= 3 && Flag(av[1], 'd') then 3 else 1
  }

  /** The text the parser is given from a file: what `GetConfigFileContent` returns
      (`None` when the file cannot be opened or is larger than 60000 bytes), up to its
      first NUL. */
  function FileText(files: map<string, string>, name: string): Option<string>
  {
    if name !in files || |files[name]| > MAX_CONFIG_FILE_SIZE then None
    else Some(CString(files[name]))
  }

  /** The argument loop from `av[cl]` on, with the record `slots`. `None` when a content it
      reaches is not one the parser can take (`Parsable`). */
  function ArgsFrom(av: seq<string>, cl: nat, slots: seq<Value>): (r: Option<Parsed>)
    requires |slots| == |Map|
    ensures r.Some? ==> |r.value.slots| == |Map| && (r.value.status == 0 || r.value.status == -1)
    ensures r.Some? && r.value.status == 0 ==> cl >= |av| || Flag(av[cl], 'p')
    ensures r.Some? && r.value.status == 0 ==> forall k :: cl <= k < |av| && Dashed(av[k]) ==> Flag(av[k], 'p')
    decreases |av| - cl
  {
    if cl >= |av| then Some(Parsed(0, slots))
    else if Flag(av[cl], 'h') then Some(Parsed(-1, slots))
    else if Flag(av[cl], 'p') then
      var e := GroupEnd(av, cl + 1);
      var text := Expand(av[cl + 1..e]);
      if !Parsable(text) then None
      else
        var r := ParseText(text, slots);
        if r.status != 0 then Some(Parsed(-1, r.slots)) else ArgsFrom(av, e, r.slots)
    else Some(Parsed(-1, slots))
  }

  /** The status `Configure` returns and the record it leaves; `None` when a content it
      reaches is not one the parser can take. */
  function Configured(av: seq<string>, files: map<string, string>): (r: Option<Parsed>)
    ensures r.Some? ==> |r.value.slots| == |Map| && (r.value.status == 0 || r.value.status == -1)
    ensures r.Some? && r.value.status == 0 ==> FirstOption(av) >= |av| || Flag(av[FirstOption(av)], 'p')
    ensures r.Some? && r.value.status == 0 ==>
              forall k :: FirstOption(av) <= k < |av| && Dashed(av[k]) ==> Flag(av[k], 'p')
  {
    if |av| >= 2 && Flag(av[1], 'h') then Some(Parsed(-1, Defaults()))
    else
      match FileText(files, ConfigFileName(av))
      case None => Some(Parsed(-1, Defaults()))
      case Some(text) =>
        if !Parsable(text) then None
        else
          var r := ParseText(text, Defaults());
          if r.status != 0 then Some(Parsed(-1, r.slots))
          else ArgsFrom(av, FirstOption(av), r.slots)
  }

  // ---------------------------------------------------------------------------
  // What the `-p` groups do to the record

  /** A name or value that can be given as `-p name=value`: a bare word with no '='. */
  predicate Plain(w: string)
  {
    Bare(w) && forall k :: 0 <= k < |w| ==> w[k] != '='
  }

  /** One setting of the command line, written `name=value` after a `-p`. */
  datatype Assignment = Assignment(name: string, value: string)

  predicate Writable(a: Assignment)
  {
    Plain(a.name) && Plain(a.value) && a.name[0] != '-'
  }

  function ArgumentOf(a: Assignment): string
  {
    a.name + "=" + a.value
  }

  /** From `av[cl]` on, the arguments are `-p name=value` groups of one setting each, and
      `settings` are those settings in argument order. */
  predicate SettingGroups(av: seq<string>, cl: nat, settings: seq<Assignment>)
    decreases |settings|
  {
    if settings == [] then cl >= |av|
    else
      && cl + 1 < |av| && Flag(av[cl], 'p')
      && Writable(settings[0]) && av[cl + 1] == ArgumentOf(settings[0])
      && SettingGroups(av, cl + 2, settings[1..])
  }

  /** What a setting does to the record, as the triple `name = value` would: nothing for
      an unknown name, a rejection for an int it cannot read, otherwise a store. */
  function SettingEffect(a: Assignment): (e: Effect)
  {
    var idx := MapIndexOf(a.name);
    if idx < 0 then NoEffect
    else
      match Convert(Map[idx].kind, a.value)
      case None => Reject
      case Some(v) => Assign(idx, v)
  }

  /** A setting the parser rejects: it names a known field, and `Convert` cannot read its
      value for that field's kind (an int field whose value `sscanf` cannot read). */
  predicate Rejected(a: Assignment)
  {
    MapIndexOf(a.name) >= 0 && Convert(Map[MapIndexOf(a.name)].kind, a.value).None?
  }

  function SettingEffects(settings: seq<Assignment>): (es: seq<Effect>)
    ensures |es| == |settings|
  {
    seq(|settings|, m requires 0 <= m < |settings| => SettingEffect(settings[m]))
  }

  /** The text a one-setting group is rewritten into, `name = value` with no newline, is
      the one triple name, "=", value. */
  lemma {:induction false} LexArgSetting(name: string, value: string)
    requires Plain(name) && Plain(value)
    ensures Lex(name + " = " + value) == [name, "=", value]
  {
    var s := name + " = " + value;
    var n := |name|;
    assert s[..n] == name;
    assert s[n] == ' ' && s[n + 1] == '=' && s[n + 2] == ' ';
    assert s[n + 3..n + 3 + |value|] == value;
    LexNameEquals(s, 0, name, []);
    assert [] + [name, "="] == [name, "="];
    Word(s, n + 3, value, [name, "="]);
    assert n + 3 + |value| == |s|;
    var last := LexState(false, true, [name, "="] + [value], 1);
    assert LexFrom(s, |s|, last) == [name, "=", value];
    assert Lex(s) == LexFrom(s, 0, Between([]));
  }

  /** One `-p name=value` group: its text is parsable and does what the setting's effect
      says. */
  lemma {:induction false} SettingGroupText(a: Assignment, slots: seq<Value>)
    requires Writable(a) && |slots| == |Map|
    ensures Parsable(Expand([ArgumentOf(a)]))
    ensures ParseText(Expand([ArgumentOf(a)]), slots) == Apply([SettingEffect(a)], slots)
  {
    ExpandSetting(a.name, a.value);
    LexArgSetting(a.name, a.value);
    SettingTextNulFree(a.name, a.value);
    OneTriple(a, slots);
  }

  lemma {:induction false} SettingTextNulFree(name: string, value: string)
    requires Plain(name) && Plain(value)
    ensures NulFree(name + " = " + value)
  {
    var text := name + " = " + value;
    forall k | 0 <= k < |text|
      ensures text[k] != NUL
    {
      if k >= |name| + 3 {
        assert text[k] == value[k - |name| - 3];
      } else if k < |name| {
        assert text[k] == name[k];
      }
    }
  }

  /** Stage two on the one triple of a setting. */
  lemma {:induction false} OneTriple(a: Assignment, slots: seq<Value>)
    requires |slots| == |Map|
    ensures TriplesInBounds([a.name, "=", a.value], 0)
    ensures Interpret([a.name, "=", a.value], 0, slots) == Apply([SettingEffect(a)], slots)
  {
    var t := [a.name, "=", a.value];
    assert TriplesInBounds(t, 3);
    TripleOfSetting(a);
    var e := SettingEffect(a);
    assert [e][1..] == [];
    match e
    case NoEffect =>
    case Reject =>
    case Assign(idx, v) =>
      assert Interpret(t, 3, slots[idx := v]) == Parsed(0, slots[idx := v]);
  }

  /** The triple of a setting has the setting's effect. */
  lemma {:induction false} TripleOfSetting(a: Assignment)
    ensures TriplesInBounds([a.name, "=", a.value], 0)
    ensures TripleEffect([a.name, "=", a.value], 0) == SettingEffect(a)
  {
    var t := [a.name, "=", a.value];
    assert TriplesInBounds(t, 3);
    assert StrCaseEqFrom("=", "=", 1);
    assert StrCaseEq("=", t[1]);
  }

  /** When the command line from `av[cl]` is one-setting `-p` groups, the argument loop is
      the in-order fold of their effects on the record: a later setting of a field
      overrides an earlier one, and the first rejected setting stops with -1. */
  lemma {:induction false} ArgsFromSettings(av: seq<string>, cl: nat, slots: seq<Value>, settings: seq<Assignment>)
    requires |slots| == |Map| && SettingGroups(av, cl, settings)
    ensures ArgsFrom(av, cl, slots) == Some(Apply(SettingEffects(settings), slots))
    decreases |settings|
  {
    var es := SettingEffects(settings);
    if settings != [] {
      var a := settings[0];
      assert av[cl + 1][0] == a.name[0];
      assert GroupEnd(av, cl + 1) == cl + 2 by {
        if cl + 2 < |av| {
          assert settings[1..] != [];
          assert Dashed(av[cl + 2]);
        }
      }
      assert av[cl + 1..cl + 2] == [ArgumentOf(a)];
      SettingGroupText(a, slots);
      assert es[1..] == SettingEffects(settings[1..]);
      match SettingEffect(a)
      case NoEffect =>
        ArgsFromSettings(av, cl + 2, slots, settings[1..]);
      case Reject =>
      case Assign(idx, v) =>
        ArgsFromSettings(av, cl + 2, slots[idx := v], settings[1..]);
    }
  }

  /** The loop over one-setting groups returns -1 exactly when some setting is rejected. */
  lemma {:induction false} ArgsFromFailsIff(av: seq<string>, cl: nat, slots: seq<Value>, settings: seq<Assignment>)
    requires |slots| == |Map| && SettingGroups(av, cl, settings)
    ensures ArgsFrom(av, cl, slots).Some?
    ensures ArgsFrom(av, cl, slots).value.status == -1 <==>
            exists m :: 0 <= m < |settings| && Rejected(settings[m])
  {
    ArgsFromSettings(av, cl, slots, settings);
    var es := SettingEffects(settings);
    ApplyFailsIff(es, slots);
    if Reject in es {
      var m :| 0 <= m < |es| && es[m] == Reject;
      assert SettingEffect(settings[m]) == Reject;
    }
    if exists m :: 0 <= m < |settings| && Rejected(settings[m]) {
      var m :| 0 <= m < |settings| && Rejected(settings[m]);
      assert es[m] == Reject;
    }
  }

  /** When no setting of the one-setting groups is rejected, the loop returns 0, and a
      field named by some setting holds what `Convert` makes of the value of the last
      setting that names it. */
  lemma {:induction false} ArgsFromLastWins(av: seq<string>, cl: nat, slots: seq<Value>, settings: seq<Assignment>,
                         idx: FieldIndex, m: nat)
    requires |slots| == |Map| && SettingGroups(av, cl, settings)
    requires forall k :: 0 <= k < |settings| ==> !Rejected(settings[k])
    requires m < |settings| && MapIndexOf(settings[m].name) == idx
    requires forall m' :: m < m' < |settings| ==> MapIndexOf(settings[m'].name) != idx
    ensures ArgsFrom(av, cl, slots).Some? && ArgsFrom(av, cl, slots).value.status == 0
    ensures Convert(Map[idx].kind, settings[m].value) == Some(ArgsFrom(av, cl, slots).value.slots[idx])
  {
    ArgsFromFailsIff(av, cl, slots, settings);
    ArgsFromSettings(av, cl, slots, settings);
    var es := SettingEffects(settings);
    ApplyFailsIff(es, slots);
    assert es[m] == SettingEffect(settings[m]);
    assert !Rejected(settings[m]);
    forall k | m < k < |es|
      ensures !(es[k].Assign? && es[k].idx == es[m].idx)
    {
      assert es[k] == SettingEffect(settings[k]);
    }
    ApplyLastWins(es, slots, m);
  }

  /** Over one-setting groups, a field no setting names keeps its value, whatever the
      status. */
  lemma {:induction false} ArgsFromKeeps(av: seq<string>, cl: nat, slots: seq<Value>, settings: seq<Assignment>, idx: FieldIndex)
    requires |slots| == |Map| && SettingGroups(av, cl, settings)
    requires forall m :: 0 <= m < |settings| ==> MapIndexOf(settings[m].name) != idx
    ensures ArgsFrom(av, cl, slots).Some? && ArgsFrom(av, cl, slots).value.slots[idx] == slots[idx]
  {
    ArgsFromSettings(av, cl, slots, settings);
    var es := SettingEffects(settings);
    forall k | 0 <= k < |es|
      ensures !(es[k].Assign? && es[k].idx == idx)
    {
      assert es[k] == SettingEffect(settings[k]);
    }
    ApplyKeeps(es, slots, idx);
  }

  /** What the configuration file leaves in the record: the defaults, then the parse of
      the file's text. */
  function FileRecord(av: seq<string>, files: map<string, string>): (r: Option<Parsed>)
    ensures r.Some? ==> |r.value.slots| == |Map|
  {
    match FileText(files, ConfigFileName(av))
    case None => None
    case Some(text) => if Parsable(text) then Some(ParseText(text, Defaults())) else None
  }

  /** When `Configure` returns 0, the file (`av[2]` after `-d`, else "config.cfg") was read
      and parsed with success first, and the `-p` loop then started from the record it
      left. */
  lemma {:induction false} ConfiguredFileFirst(av: seq<string>, files: map<string, string>)
    requires Configured(av, files).Some? && Configured(av, files).value.status == 0
    ensures FileRecord(av, files).Some? && FileRecord(av, files).value.status == 0
    ensures !(|av| >= 2 && Flag(av[1], 'h'))
    ensures |av| >= 3 && Flag(av[1], 'd') ==> av[2] in files
    ensures !(|av| >= 3 && Flag(av[1], 'd')) ==> DEFAULT_CONFIG_FILE_NAME in files
    ensures Configured(av, files) == ArgsFrom(av, FirstOption(av), FileRecord(av, files).value.slots)
  {
  }

  /** When `Configure` returns 0 and its options are one-setting `-p` groups, a field named
      by some setting holds what `Convert` makes of the last such setting's value. */
  lemma {:induction false} ConfiguredLastWins(av: seq<string>, files: map<string, string>, settings: seq<Assignment>,
                           idx: FieldIndex, m: nat)
    requires SettingGroups(av, FirstOption(av), settings)
    requires m < |settings| && MapIndexOf(settings[m].name) == idx
    requires forall m' :: m < m' < |settings| ==> MapIndexOf(settings[m'].name) != idx
    requires Configured(av, files).Some? && Configured(av, files).value.status == 0
    ensures Convert(Map[idx].kind, settings[m].value) == Some(Configured(av, files).value.slots[idx])
  {
    ConfiguredFileFirst(av, files);
    ArgsFromFailsIff(av, FirstOption(av), FileRecord(av, files).value.slots, settings);
    ArgsFromLastWins(av, FirstOption(av), FileRecord(av, files).value.slots, settings, idx, m);
  }

  /** When `Configure` returns 0 and its options are one-setting `-p` groups, a field no
      setting names holds what the configuration file left in it. */
  lemma {:induction false} ConfiguredKeepsFile(av: seq<string>, files: map<string, string>, settings: seq<Assignment>,
                            idx: FieldIndex)
    requires SettingGroups(av, FirstOption(av), settings)
    requires forall m :: 0 <= m < |settings| ==> MapIndexOf(settings[m].name) != idx
    requires Configured(av, files).Some? && Configured(av, files).value.status == 0
    ensures FileRecord(av, files).Some?
    ensures Configured(av, files).value.slots[idx] == FileRecord(av, files).value.slots[idx]
  {
    ConfiguredFileFirst(av, files);
    ArgsFromKeeps(av, FirstOption(av), FileRecord(av, files).value.slots, settings, idx);
  }

  /** `strlen` of the file buffer is the length of the C string of the file data. */
  lemma FileContentEnd(data: string, buf: seq<char>)
    requires buf == data + [NUL]
    ensures CEnd(buf, 0) == |CString(data)| && buf[..CEnd(buf, 0)] == CString(data)
  {
    var j := CEnd(data, 0);
    assert forall k :: 0 <= k < j ==> buf[k] == data[k];
    CEndIs(buf, 0, j);
  }

  /** `Configure(ac, av)`: `av[0]` is the program name; `files` gives the content of each
      file that can be opened. */
  method Configure(av: seq<string>, files: map<string, string>, cfg: ConfigInput) returns (status: int)
    requires forall k :: 0 <= k < |av| ==> NulFree(av[k])
    requires Configured(av, files).Some?
    requires cfg.Valid()
    modifies cfg
    ensures cfg.Valid()
    ensures status == Configured(av, files).value.status
    ensures cfg.slots == Configured(av, files).value.slots
  {
    cfg.slots := Zeroed();
    var _ := InitParams(cfg);
    var clCount := 1;
    var filename := DEFAULT_CONFIG_FILE_NAME;
    if |av| == 2 {
      if Flag(av[1], 'h') {
        return -1;
      }
    }
    if |av| >= 3 {
      if Flag(av[1], 'd') {
        filename := av[2];
        clCount := 3;
      }
      if Flag(av[1], 'h') {
        return -1;
      }
    }
    // GetConfigFileContent
    if filename !in files || |files[filename]| > MAX_CONFIG_FILE_SIZE {
      return -1;
    }
    var data := files[filename];
    var content := new char[|data| + 1](i requires 0 <= i <= |data| => if i < |data| then data[i] else NUL);
    assert content[..] == data + [NUL];
    var len := CEnd(content[..], 0);
    FileContentEnd(data, content[..]);
    status := ParseContent(content, len, cfg);
    if status != 0 {
      return -1;
    }
    assert FirstOption(av) == clCount;
    status := ParseGroups(av, clCount, cfg);
  }

  /** The argument loop of `Configure` from `av[clCount]` on: `-h` stops with -1, `-p`
      parses the group that follows it, anything else stops with -1. */
  method ParseGroups(av: seq<string>, clCount: nat, cfg: ConfigInput) returns (status: int)
    requires cfg.Valid() && ArgsFrom(av, clCount, cfg.slots).Some?
    modifies cfg
    ensures cfg.Valid()
    ensures status == old(ArgsFrom(av, clCount, cfg.slots)).value.status
    ensures cfg.slots == old(ArgsFrom(av, clCount, cfg.slots)).value.slots
  {
    ghost var goal := ArgsFrom(av, clCount, cfg.slots);
    var cl := clCount;
    while cl < |av|
      invariant cfg.Valid() && ArgsFrom(av, cl, cfg.slots) == goal
      decreases |av| - cl
    {
      if Flag(av[cl], 'h') {
        return -1;
      }
      if !Flag(av[cl], 'p') {
        return -1;
      }
      var content, len := CopyGroup(av, cl + 1);
      cl := GroupEnd(av, cl + 1);
      status := ParseContent(content, len, cfg);
      if status != 0 {
        return -1;
      }
    }
    return 0;
  }

  /** The `-p` branch up to the parse: sizes the buffer from the arguments `av[start..]`
      up to the next one that begins with '-', and copies them in with each '=' widened
      to " = ". The copy continues where the previous argument ended (`strlen(content)`,
      which is `len` since no argument holds a NUL). */
  method CopyGroup(av: seq<string>, start: nat) returns (content: array<char>, len: nat)
    requires start <= |av|
    ensures fresh(content)
    ensures len < content.Length && content[len] == NUL
    ensures content[..len] == Expand(av[start..GroupEnd(av, start)])
  {
    var numberParams, contentLen := GroupSize(av, start);
    GroupBufferFits(av[start..numberParams]);
    content := new char[contentLen];
    len := CopyArgs(content, av, start, numberParams);
  }

  /** The sizing loop of the `-p` branch: the arguments up to the next dashed one, and the
      buffer size for them. The source adds only the 1000 spare characters to the argument
      lengths; this model also counts the two blanks each '=' gains. */
  method GroupSize(av: seq<string>, start: nat) returns (numberParams: nat, contentLen: nat)
    requires start <= |av|
    ensures numberParams == GroupEnd(av, start)
    ensures contentLen == GroupBufferSize(av[start..numberParams])
  {
    contentLen := 0;
    numberParams := start;
    while numberParams < |av| && !Dashed(av[numberParams])
      invariant start <= numberParams <= |av|
      invariant GroupEnd(av, numberParams) == GroupEnd(av, start)
      invariant contentLen == SumLen(av[start..numberParams]) + 2 * EqTotal(av[start..numberParams])
      decreases |av| - numberParams
    {
      var a := av[numberParams];
      ghost var x := av[start..numberParams + 1];
      assert x[..|x| - 1] == av[start..numberParams] && x[|x| - 1] == a;
      contentLen := contentLen + |a| + 2 * EqCount(a);
      numberParams := numberParams + 1;
    }
    contentLen := contentLen + 1000;
  }

  /** The copy loop of the `-p` branch: `av[start..end]` one after the other from the start
      of `content`, NUL-terminated. */
  method CopyArgs(content: array<char>, av: seq<string>, start: nat, end: nat) returns (len: nat)
    requires start <= end <= |av| && |Expand(av[start..end])| < content.Length
    modifies content
    ensures len < content.Length && content[len] == NUL
    ensures content[..len] == Expand(av[start..end])
  {
    content[0] := NUL;
    len := 0;
    var clCount := start;
    while clCount < end
      invariant start <= clCount <= end
      invariant len < content.Length && content[len] == NUL
      invariant content[..len] == Expand(av[start..clCount])
      invariant len + |Expand(av[clCount..end])| < content.Length
      decreases end - clCount
    {
      ExpandSplit(av, start, clCount, end);
      ghost var done := Expand(av[start..clCount]);
      ghost var next := Expand(av[start..clCount + 1]);
      len := CopyArg(content, len, av[clCount]);
      assert content[..len] == done + ExpandArg(av[clCount]) == next;
      clCount := clCount + 1;
    }
  }

  /** One step of the copy loop: `av[cl]` moves from the part still to copy to the part
      copied. */
  lemma ExpandSplit(av: seq<string>, start: nat, cl: nat, end: nat)
    requires start <= cl < end <= |av|
    ensures Expand(av[start..cl + 1]) == Expand(av[start..cl]) + ExpandArg(av[cl])
    ensures |Expand(av[cl..end])| == |ExpandArg(av[cl])| + |Expand(av[cl + 1..end])|
  {
    ExpandSplitCopied(av, start, cl);
    ExpandSplitRest(av, cl, end);
  }

  lemma ExpandSplitCopied(av: seq<string>, start: nat, cl: nat)
    requires start <= cl < |av|
    ensures Expand(av[start..cl + 1]) == Expand(av[start..cl]) + ExpandArg(av[cl])
  {
    var x := av[start..cl + 1];
    assert x[..|x| - 1] == av[start..cl] && x[|x| - 1] == av[cl];
  }

  lemma ExpandSplitRest(av: seq<string>, cl: nat, end: nat)
    requires cl < end <= |av|
    ensures |Expand(av[cl..end])| == |ExpandArg(av[cl])| + |Expand(av[cl + 1..end])|
  {
    var rest := av[cl..end];
    ExpandCons(rest);
    assert rest[0] == av[cl] && rest[1..] == av[cl + 1..end];
  }

  lemma ExpandCons(args: seq<string>)
    requires args != []
    ensures Expand(args) == ExpandArg(args[0]) + Expand(args[1..])
  {
    ExpandAppend([args[0]], args[1..]);
    assert [args[0]] + args[1..] == args;
    assert [args[0]][..0] == [];
  }

  /** The character loop of the `-p` copy: `source` is appended at `destin`, each '=' as
      " = ", and a NUL written after it. */
  method CopyArg(content: array<char>, destin: nat, source: string) returns (len: nat)
    requires destin + |ExpandArg(source)| < content.Length
    modifies content
    ensures len == destin + |ExpandArg(source)| && content[len] == NUL
    ensures content[..len] == old(content[..destin]) + ExpandArg(source)
  {
    ghost var before := content[..destin];
    len := destin;
    var j := 0;
    while j < |source|
      invariant 0 <= j <= |source|
      invariant len == destin + |ExpandArg(source[..j])| && len <= content.Length
      invariant content[..len] == before + ExpandArg(source[..j])
      decreases |source| - j
    {
      ExpandArgStep(source, j);
      len := PutPiece(content, len, source[j]);
      j := j + 1;
    }
    assert source[..j] == source;
    content[len] := NUL;
  }

  /** Writes one character of a `-p` argument at `at`: '=' as " = ", anything else as it is. */
  method PutPiece(content: array<char>, at: nat, c: char) returns (len: nat)
    requires at + |Piece(c)| <= content.Length
    modifies content
    ensures len == at + |Piece(c)|
    ensures content[..len] == old(content[..at]) + Piece(c)
  {
    if c == '=' {
      content[at] := ' ';
      content[at + 1] := '=';
      content[at + 2] := ' ';
      len := at + 3;
    } else {
      content[at] := c;
      len := at + 1;
    }
  }

  /** One step of the character loop: the prefix grows by one piece and stays within the
      expansion of the whole argument. */
  lemma ExpandArgStep(s: string, j: nat)
    requires j < |s|
    ensures ExpandArg(s[..j + 1]) == ExpandArg(s[..j]) + Piece(s[j])
    ensures |ExpandArg(s[..j + 1])| <= |ExpandArg(s)|
  {
    var x := s[..j + 1];
    assert x[..|x| - 1] == s[..j] && x[|x| - 1] == s[j];
    ExpandArgAppend(s[..j + 1], s[j + 1..]);
    assert s[..j + 1] + s[j + 1..] == s;
  }
}
