/** `OpenCvWrapper::Utils`: the directive interpreter `SetParameters`, which hands the
    `prefix:name=value;` clauses of a parameter string to an OpenCV video-surveillance
    module, and `GetRectangleCenter`. */
module OpenCvUtils {
  import opened CText

  /** One `SetParamStr(name, value)` call a module received. */
  datatype ParamSet = ParamSet(name: string, value: string)

  predicate NamesOk(names: seq<string>)
  {
    forall j :: 0 <= j < |names| ==> NulFree(names[j])
  }

  /** A `CvVSModule` as `SetParameters` sees it: the parameter names `GetParamName` lists
      (a NULL after the last), the `SetParamStr` calls it received and the number of
      `ParamUpdate` calls. */
  class VSModule {
    const names: seq<string>
    var sets: seq<ParamSet>
    var updates: nat

    predicate Valid()
    {
      NamesOk(names)
    }

    constructor (names: seq<string>)
      requires NamesOk(names)
      ensures Valid() && this.names == names && sets == [] && updates == 0
    {
      this.names := names;
      sets := [];
      updates := 0;
    }

    function GetParamName(j: nat): Option<string>
    {
      if j < |names| then Some(names[j]) else None
    }

    method SetParamStr(name: string, value: string)
      modifies this
      ensures sets == old(sets) + [ParamSet(name, value)] && updates == old(updates)
    {
      sets := sets + [ParamSet(name, value)];
    }

    method ParamUpdate()
      modifies this
      ensures updates == old(updates) + 1 && sets == old(sets)
    {
      updates := updates + 1;
    }
  }

  // ---------------------------------------------------------------------------
  // The scan as functions of the buffer

  /** `strncasecmp(x, s + i, |x|) == 0` for a NUL-free `x` and a buffer that holds a NUL
      at or after `i`: the comparison stops at a mismatch, and a NUL in the buffer is one. */
  predicate PrefixAt(s: seq<char>, i: nat, x: string)
  {
    i + |x| <= |s| && EqualIgnoringCase(s[i..i + |x|], x)
  }

  /** A matched NUL-free prefix lies inside the C string that starts at `i`. */
  lemma PrefixEnd(s: seq<char>, i: nat, x: string)
    requires Terminated(s, i) && NulFree(x) && PrefixAt(s, i, x)
    ensures i + |x| <= CEnd(s, i) && CEnd(s, i + |x|) == CEnd(s, i)
    ensures Terminated(s, i + |x|)
  {
    forall k | i <= k < i + |x|
      ensures s[k] != NUL
    {
      assert s[i..i + |x|][k - i] == s[k];
    }
    CEndAtMost(s, i + |x|, CEnd(s, i));
    CEndAtMost(s, i, CEnd(s, i + |x|));
  }

  lemma TerminatedNext(s: seq<char>, i: nat)
    requires Terminated(s, i) && s[i] != NUL
    ensures Terminated(s, i + 1) && CEnd(s, i + 1) == CEnd(s, i)
  {
  }

  /** `strchr(s + i, c)` for a `c` other than NUL: the index of the first `c` before the C
      string ends, or -1. */
  function Find(s: seq<char>, i: nat, c: char): (j: int)
    requires i <= |s| && c != NUL
    ensures j == -1 || (i <= j < |s| && s[j] == c)
    ensures j >= 0 ==> forall k :: i <= k < j ==> s[k] != c && s[k] != NUL
    ensures j == -1 ==> forall k :: i <= k < CEnd(s, i) ==> s[k] != c
    decreases |s| - i
  {
    if i == |s| || s[i] == NUL then -1
    else if s[i] == c then i
    else Find(s, i + 1, c)
  }

  lemma {:induction false} FindIs(s: seq<char>, i: nat, c: char, j: nat)
    requires i <= j < |s| && c != NUL && s[j] == c
    requires forall k :: i <= k < j ==> s[k] != c && s[k] != NUL
    ensures Find(s, i, c) == j
    decreases j - i
  {
    if i < j {
      FindIs(s, i + 1, c, j);
    }
  }

  /** The start of a clause for module prefix `pre`: the prefix, ignoring case, then ':'. */
  predicate ClauseAt(s: seq<char>, p: nat, pre: string)
  {
    PrefixAt(s, p, pre) && p + |pre| < |s| && s[p + |pre|] == ':'
  }

  /** `cmd_param_len`: the distance from `cmd` to the first '=' of the rest of the buffer,
      0 when there is none. */
  function KeyLength(s: seq<char>, cmd: nat): nat
    requires cmd <= |s|
  {
    var e := Find(s, cmd, '=');
    if e < 0 then 0 else e - cmd
  }

  /** One turn of the name loop with parameter name `n`: where `cmd` ends up and the
      `SetParamStr` call made, if any. A name of the key's length that matches moves `cmd`
      past it; when '=' follows, `cmd` moves past the '=' too and the module gets the rest
      of the clause. */
  datatype NameStep = NameStep(cmd: nat, sets: seq<ParamSet>)

  function NameTurn(s: seq<char>, cmd: nat, keyLen: nat, n: string): (r: NameStep)
    requires Terminated(s, cmd) && NulFree(n)
    ensures cmd <= r.cmd <= CEnd(s, cmd) && Terminated(s, r.cmd) && CEnd(s, r.cmd) == CEnd(s, cmd)
  {
    if keyLen != |n| || !PrefixAt(s, cmd, n) then NameStep(cmd, [])
    else
      PrefixEnd(s, cmd, n);
      var c := cmd + |n|;
      if s[c] != '=' then NameStep(c, [])
      else
        TerminatedNext(s, c);
        NameStep(c + 1, [ParamSet(n, CStringAt(s, c + 1))])
  }

  /** The name loop for one clause: the `SetParamStr` calls made from `names[j..]` with the
      clause text at `cmd`. `cmd` is not reset between names. */
  function NameSets(s: seq<char>, cmd: nat, keyLen: nat, names: seq<string>, j: nat): seq<ParamSet>
    requires Terminated(s, cmd) && NamesOk(names) && j <= |names|
    decreases |names| - j
  {
    if j == |names| then []
    else
      var r := NameTurn(s, cmd, keyLen, names[j]);
      r.sets + NameSets(s, r.cmd, keyLen, names, j + 1)
  }

  /** Cutting a clause at its ';' leaves a C string at the clause text and another after
      the cut. */
  lemma ClauseCut(s: seq<char>, p: nat, pre: string, semi: nat)
    requires Terminated(s, p) && NulFree(pre) && ClauseAt(s, p, pre)
    requires p + |pre| + 1 <= |s| && semi == Find(s, p + |pre| + 1, ';')
    ensures p + |pre| + 1 <= semi < |s|
    ensures Terminated(s[semi := NUL], p + |pre| + 1)
    ensures Terminated(s[semi := NUL], semi + 1)
    ensures CEnd(s[semi := NUL], p + |pre| + 1) == semi
  {
    var cmd := p + |pre| + 1;
    PrefixEnd(s, p, pre);
    var e := CEnd(s, p);
    assert e > semi;
    var s' := s[semi := NUL];
    CEndAtMost(s', semi + 1, e);
    CEndIs(s', cmd, semi);
  }

  /** One turn of the `while (pParamStr[0] != '\0')` loop at a position `p` holding no
      NUL: the buffer after it, where the scan goes on, the `SetParamStr` calls made and
      whether the loop stops (`break`). A position that starts no clause is stepped over;
      a clause without ';' stops the loop; any other clause is cut at its ';', applied, and
      the scan goes on after the cut. The key length is measured before the cut. */
  datatype Turn = Turn(buf: seq<char>, next: nat, sets: seq<ParamSet>, stop: bool)

  function ScanTurn(s: seq<char>, p: nat, pre: string, names: seq<string>): (t: Turn)
    requires Terminated(s, p) && s[p] != NUL && NulFree(pre) && NamesOk(names)
    ensures |t.buf| == |s|
    ensures !t.stop ==> p < t.next && Terminated(t.buf, t.next)
  {
    if !ClauseAt(s, p, pre) then Turn(s, p + 1, [], false)
    else
      var cmd := p + |pre| + 1;
      var semi := Find(s, cmd, ';');
      if semi < 0 then Turn(s, p, [], true)
      else
        ClauseCut(s, p, pre, semi);
        var s' := s[semi := NUL];
        Turn(s', semi + 1, NameSets(s', cmd, KeyLength(s, cmd), names, 0), false)
  }

  /** What `SetParameters` does from position `p` of the buffer: the buffer it leaves (each
      applied clause's ';' overwritten with NUL) and the `SetParamStr` calls it makes, in
      order. */
  datatype Outcome = Outcome(buf: seq<char>, sets: seq<ParamSet>)

  function Directives(s: seq<char>, p: nat, pre: string, names: seq<string>): (r: Outcome)
    requires Terminated(s, p) && NulFree(pre) && NamesOk(names)
    ensures |r.buf| == |s|
    decreases |s| - p
  {
    if s[p] == NUL then Outcome(s, [])
    else
      var t := ScanTurn(s, p, pre, names);
      if t.stop then Outcome(s, [])
      else
        var rest := Directives(t.buf, t.next, pre, names);
        Outcome(rest.buf, t.sets + rest.sets)
  }

  /** A position that starts no clause is stepped over. */
  lemma DirectivesSkip(s: seq<char>, p: nat, pre: string, names: seq<string>)
    requires Terminated(s, p) && s[p] != NUL && NulFree(pre) && NamesOk(names)
    requires !ClauseAt(s, p, pre)
    ensures Terminated(s, p + 1)
    ensures Directives(s, p, pre, names) == Directives(s, p + 1, pre, names)
  {
    assert ScanTurn(s, p, pre, names) == Turn(s, p + 1, [], false);
  }

  /** The turn at a clause ended by ';'. */
  lemma ScanTurnCut(s: seq<char>, p: nat, pre: string, names: seq<string>, semi: int)
    requires Terminated(s, p) && s[p] != NUL && NulFree(pre) && NamesOk(names)
    requires ClauseAt(s, p, pre) && semi == Find(s, p + |pre| + 1, ';') && semi >= 0
    ensures p + |pre| + 1 <= semi < |s|
    ensures Terminated(s[semi := NUL], p + |pre| + 1)
    ensures ScanTurn(s, p, pre, names)
            == Turn(s[semi := NUL], semi + 1,
                    NameSets(s[semi := NUL], p + |pre| + 1, KeyLength(s, p + |pre| + 1), names, 0), false)
  {
    ClauseCut(s, p, pre, semi);
  }

  lemma DirectivesStep(s: seq<char>, p: nat, pre: string, names: seq<string>)
    requires Terminated(s, p) && s[p] != NUL && NulFree(pre) && NamesOk(names)
    ensures var t := ScanTurn(s, p, pre, names);
            && (t.stop ==> Directives(s, p, pre, names) == Outcome(s, []))
            && (!t.stop ==>
                  var rest := Directives(t.buf, t.next, pre, names);
                  Directives(s, p, pre, names) == Outcome(rest.buf, t.sets + rest.sets))
  {
  }

  // ---------------------------------------------------------------------------
  // SetParameters

  /** `Utils::SetParameters(pParamStr, pModule, pPrefixStr, pModuleStr)`: scans `buf`,
      overwriting in place the ';' of each clause it applies, hands the clauses to the
      module and calls `ParamUpdate` once at the end. */
  method SetParameters(buf: array<char>, m: VSModule, pre: string)
    requires Terminated(buf[..], 0) && NulFree(pre) && m.Valid()
    modifies buf, m
    ensures var r := Directives(old(buf[..]), 0, pre, m.names);
            buf[..] == r.buf && m.sets == old(m.sets) + r.sets
    ensures m.updates == old(m.updates) + 1
  {
    ghost var goal := Directives(buf[..], 0, pre, m.names);
    var p := 0;
    var stop := false;
    while !stop && buf[p] != NUL
      invariant Terminated(buf[..], p)
      invariant var r := Directives(buf[..], p, pre, m.names);
                r.buf == goal.buf && m.sets + r.sets == old(m.sets) + goal.sets
      invariant stop ==> Directives(buf[..], p, pre, m.names) == Outcome(buf[..], [])
      invariant m.updates == old(m.updates)
      decreases buf.Length - p, if stop then 0 else 1
    {
      ghost var s := buf[..];
      ghost var sets0 := m.sets;
      DirectivesStep(s, p, pre, m.names);
      p, stop := ScanClause(buf, p, m, pre);
      if !stop {
        Reassociate(sets0, m.sets[|sets0|..], Directives(buf[..], p, pre, m.names).sets);
      }
    }
    m.ParamUpdate();
  }

  /** The body of the scan loop, as `ScanTurn` describes it. */
  method ScanClause(buf: array<char>, p: nat, m: VSModule, pre: string) returns (next: nat, stop: bool)
    requires Terminated(buf[..], p) && buf[p] != NUL && NulFree(pre) && m.Valid()
    modifies buf, m
    ensures var t := ScanTurn(old(buf[..]), p, pre, m.names);
            buf[..] == t.buf && next == t.next && stop == t.stop && m.sets == old(m.sets) + t.sets
    ensures m.updates == old(m.updates)
  {
    if !PrefixAt(buf[..], p, pre) {
      return p + 1, false;
    }
    PrefixEnd(buf[..], p, pre);
    if buf[p + |pre|] != ':' {
      return p + 1, false;
    }
    next, stop := ApplyClause(buf, p, m, pre);
  }

  /** The scan loop's body at a clause start: cut at the ';' and run the name loop, or
      stop when the clause has no ';'. */
  method ApplyClause(buf: array<char>, p: nat, m: VSModule, pre: string) returns (next: nat, stop: bool)
    requires Terminated(buf[..], p) && buf[p] != NUL && NulFree(pre) && m.Valid()
    requires ClauseAt(buf[..], p, pre)
    modifies buf, m
    ensures var t := ScanTurn(old(buf[..]), p, pre, m.names);
            buf[..] == t.buf && next == t.next && stop == t.stop && m.sets == old(m.sets) + t.sets
    ensures m.updates == old(m.updates)
  {
    var cmd := p + |pre| + 1;
    var eq := Find(buf[..], cmd, '=');
    var keyLen := if eq >= 0 then eq - cmd else 0;
    var semi := Find(buf[..], cmd, ';');
    if semi < 0 {
      return p, true;
    }
    ScanTurnCut(buf[..], p, pre, m.names, semi);
    assert keyLen == KeyLength(buf[..], cmd);
    CutAndApply(buf, cmd, keyLen, semi, m);
    return semi + 1, false;
  }

  /** `*ptr_eq = '\0'` on the clause's ';', then the name loop on the clause text. */
  method CutAndApply(buf: array<char>, cmd: nat, keyLen: nat, semi: nat, m: VSModule)
    requires cmd <= semi < buf.Length && Terminated(buf[..][semi := NUL], cmd) && m.Valid()
    modifies buf, m
    ensures buf[..] == old(buf[..])[semi := NUL]
    ensures m.sets == old(m.sets) + NameSets(old(buf[..])[semi := NUL], cmd, keyLen, m.names, 0)
    ensures m.updates == old(m.updates)
  {
    buf[semi] := NUL;
    ApplyNames(buf, cmd, keyLen, m);
  }

  /** The `for (j = 0; ; ++j)` loop over the module's parameter names. */
  method ApplyNames(buf: array<char>, cmd0: nat, keyLen: nat, m: VSModule)
    requires Terminated(buf[..], cmd0) && m.Valid()
    modifies m
    ensures m.sets == old(m.sets) + NameSets(buf[..], cmd0, keyLen, m.names, 0)
    ensures m.updates == old(m.updates)
  {
    ghost var s := buf[..];
    ghost var names := m.names;
    var cmd: nat := cmd0;
    var j := 0;
    while true
      invariant j <= |names| && Terminated(s, cmd)
      invariant m.sets + NameSets(s, cmd, keyLen, names, j) == old(m.sets) + NameSets(s, cmd0, keyLen, names, 0)
      invariant m.updates == old(m.updates)
      decreases |names| - j
    {
      var param := m.GetParamName(j);
      if param.None? {
        break;
      }
      ghost var sets0 := m.sets;
      NameSetsStep(s, cmd, keyLen, names, j);
      cmd := ApplyName(buf, cmd, keyLen, param.value, m);
      Reassociate(sets0, m.sets[|sets0|..], NameSets(s, cmd, keyLen, names, j + 1));
      j := j + 1;
    }
  }

  lemma NameSetsStep(s: seq<char>, cmd: nat, keyLen: nat, names: seq<string>, j: nat)
    requires Terminated(s, cmd) && NamesOk(names) && j < |names|
    ensures var r := NameTurn(s, cmd, keyLen, names[j]);
            NameSets(s, cmd, keyLen, names, j) == r.sets + NameSets(s, r.cmd, keyLen, names, j + 1)
  {
  }

  lemma Reassociate<T>(a: seq<T>, b: seq<T>, c: seq<T>)
    ensures (a + b) + c == a + (b + c)
  {
  }

  /** The body of the name loop, as `NameTurn` describes it. */
  method ApplyName(buf: array<char>, cmd: nat, keyLen: nat, n: string, m: VSModule) returns (cmd': nat)
    requires Terminated(buf[..], cmd) && NulFree(n)
    modifies m
    ensures var r := NameTurn(buf[..], cmd, keyLen, n);
            cmd' == r.cmd && m.sets == old(m.sets) + r.sets
    ensures m.updates == old(m.updates)
  {
    cmd' := cmd;
    if keyLen != |n| || !PrefixAt(buf[..], cmd', n) {
      return;
    }
    PrefixEnd(buf[..], cmd', n);
    cmd' := cmd' + |n|;
    if buf[cmd'] != '=' {
      return;
    }
    TerminatedNext(buf[..], cmd');
    cmd' := cmd' + 1;
    m.SetParamStr(n, CStringAt(buf[..], cmd'));
  }

  // ---------------------------------------------------------------------------
  // What the scan does, over whole strings

  /** The scan changes the buffer only by overwriting ';' with NUL, and only after `p`. */
  lemma {:induction false} DirectivesOnlyCut(s: seq<char>, p: nat, pre: string, names: seq<string>)
    requires Terminated(s, p) && NulFree(pre) && NamesOk(names)
    ensures var r := Directives(s, p, pre, names);
            forall k :: 0 <= k < |s| && r.buf[k] != s[k] ==> p < k && s[k] == ';' && r.buf[k] == NUL
    decreases |s| - p
  {
    if s[p] != NUL {
      var t := ScanTurn(s, p, pre, names);
      if !t.stop {
        DirectivesOnlyCut(t.buf, t.next, pre, names);
        if ClauseAt(s, p, pre) {
          ClauseCut(s, p, pre, Find(s, p + |pre| + 1, ';'));
        }
      }
    }
  }

  /** A `SetParamStr` call names one of the module's parameters, with a value that holds no
      ';'. */
  predicate Clean(x: ParamSet, names: seq<string>)
  {
    x.name in names && NulFree(x.value) && forall k :: 0 <= k < |x.value| ==> x.value[k] != ';'
  }

  lemma {:induction false} NameSetsClean(s: seq<char>, cmd: nat, keyLen: nat, names: seq<string>, j: nat)
    requires Terminated(s, cmd) && NamesOk(names) && j <= |names|
    requires forall k :: cmd <= k < CEnd(s, cmd) ==> s[k] != ';'
    ensures forall x :: x in NameSets(s, cmd, keyLen, names, j) ==> Clean(x, names)
    decreases |names| - j
  {
    if j < |names| {
      var r := NameTurn(s, cmd, keyLen, names[j]);
      NameSetsClean(s, r.cmd, keyLen, names, j + 1);
      if r.sets != [] {
        var c := r.cmd;
        assert r.sets == [ParamSet(names[j], CStringAt(s, c))];
        assert forall k :: 0 <= k < |CStringAt(s, c)| ==> CStringAt(s, c)[k] == s[c + k];
      }
    }
  }

  /** Every `SetParamStr` call the scan makes is `Clean`. */
  lemma {:induction false} DirectivesSetsClean(s: seq<char>, p: nat, pre: string, names: seq<string>)
    requires Terminated(s, p) && NulFree(pre) && NamesOk(names)
    ensures forall x :: x in Directives(s, p, pre, names).sets ==> Clean(x, names)
    decreases |s| - p
  {
    if s[p] != NUL {
      var t := ScanTurn(s, p, pre, names);
      if !t.stop {
        DirectivesSetsClean(t.buf, t.next, pre, names);
        if ClauseAt(s, p, pre) {
          var cmd := p + |pre| + 1;
          var semi := Find(s, cmd, ';');
          ScanTurnCut(s, p, pre, names, semi);
          ClauseCut(s, p, pre, semi);
          NameSetsClean(t.buf, cmd, KeyLength(s, cmd), names, 0);
        }
      }
    }
  }

  /** Without a ';' the scan applies nothing and leaves the buffer as it is: a clause must
      end with ';'. */
  lemma {:induction false} NoSemicolonNoSets(s: seq<char>, p: nat, pre: string, names: seq<string>)
    requires Terminated(s, p) && NulFree(pre) && NamesOk(names)
    requires forall k :: p <= k < |s| ==> s[k] != ';'
    ensures Directives(s, p, pre, names) == Outcome(s, [])
    decreases |s| - p
  {
    if s[p] != NUL {
      var t := ScanTurn(s, p, pre, names);
      if !t.stop {
        NoSemicolonNoSets(t.buf, t.next, pre, names);
      }
    }
  }

  /** No NUL and no clause start in `s[p..q]`. */
  predicate NoClauseBetween(s: seq<char>, p: nat, q: nat, pre: string)
    requires p <= q <= |s|
    decreases q - p
  {
    p == q || (s[p] != NUL && !ClauseAt(s, p, pre) && NoClauseBetween(s, p + 1, q, pre))
  }

  /** Positions that start no clause are stepped over one at a time, so the scan finds a
      clause at any offset. */
  lemma {:induction false} SkipToClause(s: seq<char>, p: nat, q: nat, pre: string, names: seq<string>)
    requires Terminated(s, p) && p <= q <= |s| && NulFree(pre) && NamesOk(names)
    requires NoClauseBetween(s, p, q, pre)
    ensures Terminated(s, q) && Directives(s, p, pre, names) == Directives(s, q, pre, names)
    decreases q - p
  {
    if p < q {
      DirectivesSkip(s, p, pre, names);
      SkipToClause(s, p + 1, q, pre, names);
    }
  }

  /** No NUL, '=' or ';' in `x`. */
  predicate Plain(x: string)
  {
    forall k :: 0 <= k < |x| ==> x[k] != NUL && x[k] != '=' && x[k] != ';'
  }

  lemma {:induction false} NameSetsNoEq(s: seq<char>, cmd: nat, keyLen: nat, names: seq<string>, j: nat)
    requires Terminated(s, cmd) && NamesOk(names) && j <= |names|
    requires forall k :: cmd <= k < CEnd(s, cmd) ==> s[k] != '='
    ensures NameSets(s, cmd, keyLen, names, j) == []
    decreases |names| - j
  {
    if j < |names| {
      var r := NameTurn(s, cmd, keyLen, names[j]);
      assert r.sets == [];
      NameSetsNoEq(s, r.cmd, keyLen, names, j + 1);
    }
  }

  /** A name that does not match at `cmd`: its turn neither moves `cmd` nor sets anything. */
  predicate Misses(s: seq<char>, cmd: nat, keyLen: nat, n: string)
  {
    keyLen != |n| || !PrefixAt(s, cmd, n)
  }

  /** Names that miss set nothing and leave `cmd` where it is. */
  lemma {:induction false} NameSetsSkip(s: seq<char>, cmd: nat, keyLen: nat, names: seq<string>, j: nat, i: nat)
    requires Terminated(s, cmd) && NamesOk(names) && j <= i <= |names|
    requires forall m :: j <= m < i ==> Misses(s, cmd, keyLen, names[m])
    ensures NameSets(s, cmd, keyLen, names, j) == NameSets(s, cmd, keyLen, names, i)
    decreases i - j
  {
    if j < i {
      assert NameTurn(s, cmd, keyLen, names[j]) == NameStep(cmd, []);
      NameSetsSkip(s, cmd, keyLen, names, j + 1, i);
    }
  }

  /** The name loop on a clause text `key=value` held in `s[cmd..semi]` (the '=' at `e`,
      the cut at `semi`): the first name that is the key ignoring case gets the value, and
      nothing else is set when the value holds no '='. */
  lemma KeyValueNames(s: seq<char>, cmd: nat, e: nat, semi: nat, names: seq<string>, i: nat)
    requires NamesOk(names) && i < |names|
    requires cmd <= e < semi < |s| && s[e] == '=' && s[semi] == NUL
    requires forall k :: cmd <= k < semi ==> s[k] != NUL
    requires forall k :: e < k < semi ==> s[k] != '='
    requires EqualIgnoringCase(names[i], s[cmd..e])
    requires forall j :: 0 <= j < i ==> !EqualIgnoringCase(names[j], s[cmd..e])
    ensures Terminated(s, cmd)
    ensures NameSets(s, cmd, e - cmd, names, 0) == [ParamSet(names[i], s[e + 1..semi])]
  {
    KeyValueHit(s, cmd, e, semi, names, i);
    var keyLen := e - cmd;
    forall m | 0 <= m < i
      ensures Misses(s, cmd, keyLen, names[m])
    {
      PrefixIsKey(s, cmd, e, names[m]);
    }
    NameSetsSkip(s, cmd, keyLen, names, 0, i);
  }

  /** From the first matching name on, the loop sets that name to the value and nothing
      else. */
  lemma KeyValueHit(s: seq<char>, cmd: nat, e: nat, semi: nat, names: seq<string>, i: nat)
    requires NamesOk(names) && i < |names|
    requires cmd <= e < semi < |s| && s[e] == '=' && s[semi] == NUL
    requires forall k :: cmd <= k < semi ==> s[k] != NUL
    requires forall k :: e < k < semi ==> s[k] != '='
    requires EqualIgnoringCase(names[i], s[cmd..e])
    ensures Terminated(s, cmd)
    ensures NameSets(s, cmd, e - cmd, names, i) == [ParamSet(names[i], s[e + 1..semi])]
  {
    CEndIs(s, cmd, semi);
    CEndIs(s, e + 1, semi);
    NameTurnHit(s, cmd, e, semi, names[i]);
    ValueHoldsNoEq(s, cmd, e, semi, names, i);
    NameSetsLast(s, cmd, e - cmd, names, i, e + 1, [ParamSet(names[i], s[e + 1..semi])]);
  }

  /** After the value is handed over, the later names find no '=' and set nothing. */
  lemma ValueHoldsNoEq(s: seq<char>, cmd: nat, e: nat, semi: nat, names: seq<string>, i: nat)
    requires NamesOk(names) && i < |names|
    requires cmd <= e < semi < |s| && s[semi] == NUL
    requires forall k :: cmd <= k < semi ==> s[k] != NUL
    requires forall k :: e < k < semi ==> s[k] != '='
    ensures Terminated(s, e + 1)
    ensures NameSets(s, e + 1, e - cmd, names, i + 1) == []
  {
    CEndIs(s, e + 1, semi);
    NameSetsNoEq(s, e + 1, e - cmd, names, i + 1);
  }

  /** A turn that sets `sets`, followed by turns that set nothing. */
  lemma NameSetsLast(s: seq<char>, cmd: nat, keyLen: nat, names: seq<string>, i: nat, next: nat, sets: seq<ParamSet>)
    requires Terminated(s, cmd) && NamesOk(names) && i < |names|
    requires NameTurn(s, cmd, keyLen, names[i]) == NameStep(next, sets)
    requires NameSets(s, next, keyLen, names, i + 1) == []
    ensures NameSets(s, cmd, keyLen, names, i) == sets
  {
    NameSetsStep(s, cmd, keyLen, names, i);
  }

  /** A name that is not the key `s[cmd..e]` ignoring case leaves `cmd` where it is. */
  lemma NameTurnMiss(s: seq<char>, cmd: nat, e: nat, n: string)
    requires Terminated(s, cmd) && NulFree(n) && cmd <= e <= |s|
    requires !EqualIgnoringCase(n, s[cmd..e])
    ensures NameTurn(s, cmd, e - cmd, n) == NameStep(cmd, [])
  {
    PrefixIsKey(s, cmd, e, n);
  }

  /** A name matched as a prefix of the key's length is the key ignoring case. */
  lemma PrefixIsKey(s: seq<char>, cmd: nat, e: nat, n: string)
    requires cmd <= e <= |s|
    ensures e - cmd == |n| && PrefixAt(s, cmd, n) ==> EqualIgnoringCase(n, s[cmd..e])
  {
    if e - cmd == |n| && PrefixAt(s, cmd, n) {
      assert forall k :: 0 <= k < |n| ==> Lower(n[k]) == Lower(s[cmd..e][k]);
    }
  }

  /** The key's own name, followed by '=', moves `cmd` past the '=' and hands the module
      the value up to the cut. */
  lemma NameTurnHit(s: seq<char>, cmd: nat, e: nat, semi: nat, n: string)
    requires cmd <= e < semi < |s| && s[e] == '=' && s[semi] == NUL && NulFree(n)
    requires forall k :: cmd <= k < semi ==> s[k] != NUL
    requires EqualIgnoringCase(n, s[cmd..e])
    requires Terminated(s, cmd) && CEnd(s, e + 1) == semi
    ensures NameTurn(s, cmd, e - cmd, n) == NameStep(e + 1, [ParamSet(n, s[e + 1..semi])])
  {
    assert PrefixAt(s, cmd, n) by {
      assert forall k :: 0 <= k < |n| ==> Lower(s[cmd..e][k]) == Lower(n[k]);
    }
    assert CStringAt(s, e + 1) == s[e + 1..semi];
  }

  /** A parameter string that is text `before` holding no clause start, then the one
      clause `pre:key=value;` with neither '=' nor ';' in key and value, sets the first
      parameter whose name is `key` ignoring case (in the module's own spelling) to `value`,
      and nothing else; the clause's ';' becomes NUL. */
  lemma OneClause(before: string, pre: string, key: string, value: string, names: seq<string>, i: nat)
    requires NulFree(pre) && NamesOk(names) && i < |names|
    requires Plain(key) && Plain(value)
    requires EqualIgnoringCase(names[i], key)
    requires forall j :: 0 <= j < i ==> !EqualIgnoringCase(names[j], key)
    requires NoClauseBetween(before + pre + [':'] + key + ['='] + value + [';', NUL], 0, |before|, pre)
    ensures var s := before + pre + [':'] + key + ['='] + value + [';', NUL];
            && Terminated(s, 0)
            && Directives(s, 0, pre, names) == Outcome(s[|s| - 2 := NUL], [ParamSet(names[i], value)])
  {
    var s := before + pre + [':'] + key + ['='] + value + [';', NUL];
    var p := |before|;
    var cmd := p + |pre| + 1;
    var e := cmd + |key|;
    var semi := e + 1 + |value|;
    ClauseText(s, before, pre, key, value, p, cmd, e, semi);
    ClauseDirectives(s, p, pre, key, value, cmd, e, semi, names, i);
    NoClauseTerminated(s, 0, p, pre);
    SkipToClause(s, 0, p, pre, names);
  }

  /** Text without a clause start holds no NUL, so a C string running past it ends where
      the one after it does. */
  lemma {:induction false} NoClauseTerminated(s: seq<char>, p: nat, q: nat, pre: string)
    requires p <= q <= |s| && NoClauseBetween(s, p, q, pre) && Terminated(s, q)
    ensures Terminated(s, p)
    decreases q - p
  {
    if p < q {
      NoClauseTerminated(s, p + 1, q, pre);
    }
  }

  /** The scan from `p` of a buffer that ends with one clause `pre:key=value;` at `p` and
      its NUL, the '=' at `e` and the ';' at `semi`. */
  lemma ClauseDirectives(s: seq<char>, p: nat, pre: string, key: string, value: string,
                          cmd: nat, e: nat, semi: nat, names: seq<string>, i: nat)
    requires NulFree(pre) && NamesOk(names) && i < |names|
    requires cmd == p + |pre| + 1 && cmd <= e < semi && |s| == semi + 2
    requires ClauseAt(s, p, pre) && s[p] != NUL
    requires s[e] == '=' && s[semi] == ';' && s[semi + 1] == NUL
    requires forall k :: cmd <= k < semi ==> s[k] != ';' && s[k] != NUL
    requires forall k :: cmd <= k < semi && k != e ==> s[k] != '='
    requires s[cmd..e] == key && s[e + 1..semi] == value
    requires EqualIgnoringCase(names[i], key)
    requires forall j :: 0 <= j < i ==> !EqualIgnoringCase(names[j], key)
    ensures Terminated(s, p)
    ensures Directives(s, p, pre, names) == Outcome(s[semi := NUL], [ParamSet(names[i], value)])
  {
    FindIs(s, cmd, ';', semi);
    FindIs(s, cmd, '=', e);
    LastClause(s, p, pre, cmd, e, semi, names);
    var s' := s[semi := NUL];
    assert s'[cmd..e] == s[cmd..e] && s'[e + 1..semi] == s[e + 1..semi];
    KeyValueNames(s', cmd, e, semi, names, i);
  }

  /** A clause at `p` whose ';' is the buffer's last character before its NUL: the scan is
      that one clause's name loop. */
  lemma LastClause(s: seq<char>, p: nat, pre: string, cmd: nat, e: nat, semi: nat, names: seq<string>)
    requires NulFree(pre) && NamesOk(names)
    requires cmd == p + |pre| + 1 && cmd <= e && |s| == semi + 2 && s[semi + 1] == NUL
    requires ClauseAt(s, p, pre) && s[p] != NUL
    requires Find(s, cmd, ';') == semi && Find(s, cmd, '=') == e
    ensures Terminated(s, p) && Terminated(s[semi := NUL], cmd)
    ensures Directives(s, p, pre, names)
            == Outcome(s[semi := NUL], NameSets(s[semi := NUL], cmd, e - cmd, names, 0))
  {
    assert KeyLength(s, cmd) == e - cmd;
    LastClauseTurn(s, p, pre, cmd, e, semi, names);
    DirectivesLastTurn(s, p, pre, names);
  }

  /** The turn at that clause cuts it at `semi` and runs the name loop with the key
      length `e - cmd`. */
  lemma LastClauseTurn(s: seq<char>, p: nat, pre: string, cmd: nat, e: nat, semi: nat, names: seq<string>)
    requires NulFree(pre) && NamesOk(names)
    requires cmd == p + |pre| + 1 && cmd <= e && |s| == semi + 2 && s[semi + 1] == NUL
    requires ClauseAt(s, p, pre) && s[p] != NUL
    requires Find(s, cmd, ';') == semi && KeyLength(s, cmd) == e - cmd
    ensures Terminated(s, p) && Terminated(s[semi := NUL], cmd)
    ensures ScanTurn(s, p, pre, names)
            == Turn(s[semi := NUL], semi + 1, NameSets(s[semi := NUL], cmd, e - cmd, names, 0), false)
  {
    CEndAtMost(s, p, semi + 1);
    ScanTurnCut(s, p, pre, names, semi);
  }

  /** A turn after which the buffer ends is the whole scan. */
  lemma DirectivesLastTurn(s: seq<char>, p: nat, pre: string, names: seq<string>)
    requires Terminated(s, p) && s[p] != NUL && NulFree(pre) && NamesOk(names)
    requires !ScanTurn(s, p, pre, names).stop
    requires var t := ScanTurn(s, p, pre, names); t.buf[t.next] == NUL
    ensures var t := ScanTurn(s, p, pre, names); Directives(s, p, pre, names) == Outcome(t.buf, t.sets)
  {
    var t := ScanTurn(s, p, pre, names);
    assert Directives(t.buf, t.next, pre, names) == Outcome(t.buf, []);
    assert t.sets + [] == t.sets;
  }

  /** Where the parts of `before` followed by `pre:key=value;` lie. */
  lemma ClauseText(s: seq<char>, before: string, pre: string, key: string, value: string,
                   p: nat, cmd: nat, e: nat, semi: nat)
    requires NulFree(pre) && Plain(key) && Plain(value)
    requires s == before + pre + [':'] + key + ['='] + value + [';', NUL]
    requires p == |before| && cmd == p + |pre| + 1 && e == cmd + |key| && semi == e + 1 + |value|
    ensures cmd <= e < semi && |s| == semi + 2
    ensures ClauseAt(s, p, pre) && s[p] != NUL
    ensures s[e] == '=' && s[semi] == ';' && s[semi + 1] == NUL
    ensures forall k :: cmd <= k < semi ==> s[k] != ';' && s[k] != NUL
    ensures forall k :: cmd <= k < semi && k != e ==> s[k] != '='
    ensures s[cmd..e] == key && s[e + 1..semi] == value
  {
    var v := e + 1;
    assert s[p..p + |pre|] == pre && s[p + |pre|] == ':';
    assert s[cmd..e] == key && s[e] == '=';
    assert s[v..semi] == value;
    forall k | cmd <= k < semi
      ensures s[k] != ';' && s[k] != NUL && (k != e ==> s[k] != '=')
    {
      if k < e {
        assert s[k] == s[cmd..e][k - cmd];
      } else if k > e {
        assert s[k] == s[v..semi][k - v];
      }
    }
    assert PrefixAt(s, p, pre);
    assert s[p] != NUL by {
      if |pre| > 0 {
        assert s[p] == s[p..p + |pre|][0];
      }
    }
  }

  /** The name loop does not stop at a match and does not reset `cmd`: with names `a` and
      `b`, the clause `fg:a=b=1;` gives `a` the value `b=1`, and then, from the position
      after `a=`, gives `b` the value `1`. */
  lemma LaterNameReadsValue()
    ensures Terminated("fg:a=b=1;\0", 0)
    ensures Directives("fg:a=b=1;\0", 0, "fg", ["a", "b"]).sets == [ParamSet("a", "b=1"), ParamSet("b", "1")]
  {
    var s := "fg:a=b=1;\0";
    FindIs(s, 3, ';', 8);
    FindIs(s, 3, '=', 4);
    LastClause(s, 0, "fg", 3, 4, 8, ["a", "b"]);
    LaterNameSets();
  }

  /** The name loop of `LaterNameReadsValue`, on the buffer after the cut. */
  lemma LaterNameSets()
    ensures Terminated("fg:a=b=1;\0"[8 := NUL], 3)
    ensures NameSets("fg:a=b=1;\0"[8 := NUL], 3, 1, ["a", "b"], 0) == [ParamSet("a", "b=1"), ParamSet("b", "1")]
  {
    var s := "fg:a=b=1;\0"[8 := NUL];
    var names := ["a", "b"];
    CEndIs(s, 3, 8);
    FirstNameTurn();
    SecondNameTurn();
    NameSetsStep(s, 3, 1, names, 0);
    NameSetsStep(s, 5, 1, names, 1);
    assert NameSets(s, 7, 1, names, 2) == [];
  }

  /** `a` matches the key and takes the rest of the clause, `b=1`. */
  lemma FirstNameTurn()
    ensures Terminated("fg:a=b=1;\0"[8 := NUL], 5)
    ensures NameTurn("fg:a=b=1;\0"[8 := NUL], 3, 1, "a") == NameStep(5, [ParamSet("a", "b=1")])
  {
    var s := "fg:a=b=1;\0"[8 := NUL];
    CEndIs(s, 3, 8);
    CEndIs(s, 5, 8);
    NameTurnHit(s, 3, 4, 8, "a");
    assert s[5..8] == "b=1";
  }

  /** From after `a=`, `b` matches too and takes `1`. */
  lemma SecondNameTurn()
    ensures Terminated("fg:a=b=1;\0"[8 := NUL], 7)
    ensures NameTurn("fg:a=b=1;\0"[8 := NUL], 5, 1, "b") == NameStep(7, [ParamSet("b", "1")])
  {
    var s := "fg:a=b=1;\0"[8 := NUL];
    CEndIs(s, 5, 8);
    CEndIs(s, 7, 8);
    NameTurnHit(s, 5, 6, 8, "b");
    assert s[7..8] == "1";
  }

  /** A clause is found at any offset, even inside the value of another module's clause:
      the tracker (prefix `bt`) picks `y=1` out of the analyser's clause `bta:x=bt:y=1;`. */
  lemma ClauseInsideValue()
    ensures var s := "bta:x=" + "bt" + [':'] + "y" + ['='] + "1" + [';', NUL];
            && Terminated(s, 0)
            && Directives(s, 0, "bt", ["y"]).sets == [ParamSet("y", "1")]
  {
    var s := "bta:x=" + "bt" + [':'] + "y" + ['='] + "1" + [';', NUL];
    assert !ClauseAt(s, 0, "bt") && !ClauseAt(s, 1, "bt") && !ClauseAt(s, 2, "bt");
    assert !ClauseAt(s, 3, "bt") && !ClauseAt(s, 4, "bt") && !ClauseAt(s, 5, "bt");
    assert NoClauseBetween(s, 0, 6, "bt");
    OneClause("bta:x=", "bt", "y", "1", ["y"], 0);
  }

  // ---------------------------------------------------------------------------
  // GetRectangleCenter

  datatype Rect = Rect(x: int, y: int, width: int, height: int)
  datatype Point = Point(x: int, y: int)

  /** `static_cast<int>(n / 2.0)`: half of `n`, truncated toward zero. */
  function HalfTowardZero(n: int): (r: int)
    ensures n >= 0 ==> 0 <= r && 2 * r <= n < 2 * r + 2
    ensures n < 0 ==> r <= 0 && 2 * r - 2 < n <= 2 * r
  {
    if n >= 0 then n / 2 else -((-n) / 2)
  }

  /** `Utils::GetRectangleCenter`: `x + width / 2.0` and `y + height / 2.0`, each cut to an
      int toward zero. The point the source allocates is returned as a value. */
  function GetRectangleCenter(r: Rect): (c: Point)
    ensures 2 * r.x + r.width >= 0 ==> 2 * c.x <= 2 * r.x + r.width < 2 * c.x + 2
    ensures 2 * r.x + r.width < 0 ==> 2 * c.x - 2 < 2 * r.x + r.width <= 2 * c.x
    ensures 2 * r.y + r.height >= 0 ==> 2 * c.y <= 2 * r.y + r.height < 2 * c.y + 2
    ensures 2 * r.y + r.height < 0 ==> 2 * c.y - 2 < 2 * r.y + r.height <= 2 * c.y
  {
    Point(HalfTowardZero(2 * r.x + r.width), HalfTowardZero(2 * r.y + r.height))
  }

  /** With no negative coordinate or size the center is `(x + width div 2, y + height div 2)`. */
  lemma CenterOfNonNegative(r: Rect)
    requires r.x >= 0 && r.y >= 0 && r.width >= 0 && r.height >= 0
    ensures GetRectangleCenter(r) == Point(r.x + r.width / 2, r.y + r.height / 2)
  {
    var c := GetRectangleCenter(r);
    assert c.x == r.x + r.width / 2 by {
      HalfUnique(2 * r.x + r.width, c.x, r.x + r.width / 2);
    }
    assert c.y == r.y + r.height / 2 by {
      HalfUnique(2 * r.y + r.height, c.y, r.y + r.height / 2);
    }
  }

  lemma HalfUnique(n: int, a: int, b: int)
    requires 2 * a <= n < 2 * a + 2 && 2 * b <= n < 2 * b + 2
    ensures a == b
  {
  }

  /** The cast truncates toward zero, not down: the rectangle at (-1, -1) of size 1 x 1
      has its center at (0, 0). */
  lemma CenterTruncatesTowardZero()
    ensures GetRectangleCenter(Rect(-1, -1, 1, 1)) == Point(0, 0)
  {
  }
}
