/** What the configuration parser makes of a text, stated without following its loops:
    when stage two fails, which value a field ends up with, and the tokens of a file
    written as `name = value` lines, quoted values and comments. */
module ConfigFormat {
  import opened CText
  import opened Config
  import opened ConfigParse

  // ---------------------------------------------------------------------------
  // Stage two as a list of effects

  /** Where triple number `m` counted from token `i` starts. */
  function TripleStart(i: nat, m: nat): nat
  {
    i + 3 * m
  }

  /** How many triples stage two reads from token `i` on: one per start that has a token
      after it. */
  function TripleCount(t: seq<string>, i: nat): nat
    decreases |t| - i
  {
    if i + 1 >= |t| then 0 else 1 + TripleCount(t, i + 3)
  }

  /** Triple number `m` is read exactly while its start has a token after it. */
  lemma {:induction false} TripleCountIff(t: seq<string>, i: nat, m: nat)
    ensures m < TripleCount(t, i) <==> TripleStart(i, m) + 1 < |t|
    decreases m
  {
    if i + 1 < |t| && m > 0 {
      assert TripleStart(i + 3, m - 1) == TripleStart(i, m);
      TripleCountIff(t, i + 3, m - 1);
    }
  }

  /** Stage two reads no token past the end from any later triple either. */
  lemma {:induction false} InBoundsAt(t: seq<string>, i: nat, m: nat)
    requires TriplesInBounds(t, i) && TripleStart(i, m) + 1 < |t|
    ensures TriplesInBounds(t, TripleStart(i, m))
    decreases m
  {
    if m > 0 {
      assert TripleStart(i + 3, m - 1) == TripleStart(i, m);
      InBoundsAt(t, i + 3, m - 1);
    }
  }

  /** The last triple read from token `i` on still has its two tokens. */
  lemma LastTripleInside(t: seq<string>, i: nat)
    ensures TripleCount(t, i) == 0 || TripleStart(i, TripleCount(t, i) - 1) + 1 < |t|
  {
    if TripleCount(t, i) > 0 {
      TripleCountIff(t, i, TripleCount(t, i) - 1);
    }
  }

  /** What each token would do as the start of a triple: `TripleEffect` where stage two
      may start one, nothing elsewhere. */
  function EffectTable(t: seq<string>): (table: seq<Effect>)
    ensures |table| == |t|
  {
    seq(|t|, j requires 0 <= j < |t| =>
      if j + 1 < |t| && TriplesInBounds(t, j) then TripleEffect(t, j) else NoEffect)
  }

  /** The entries `i`, `i + 3`, `i + 6`, ... of `table`, `n` of them. */
  function Stride(table: seq<Effect>, i: nat, n: nat): (r: seq<Effect>)
    requires n == 0 || TripleStart(i, n - 1) < |table|
    ensures |r| == n
  {
    seq(n, m requires 0 <= m < n => table[TripleStart(i, m)])
  }

  /** Every third entry from `i` on: entry `i`, then every third from `i + 3` on. */
  lemma StrideCons(table: seq<Effect>, i: nat, n: nat)
    requires 0 < n && TripleStart(i, n - 1) < |table|
    ensures Stride(table, i, n) == [table[i]] + Stride(table, i + 3, n - 1)
  {
    var a := Stride(table, i, n);
    var b := Stride(table, i + 3, n - 1);
    assert TripleStart(i, 0) == i;
    forall k | 0 <= k < n - 1
      ensures a[k + 1] == b[k]
    {
      assert TripleStart(i, k + 1) == TripleStart(i + 3, k);
    }
    assert a == [table[i]] + b;
  }

  lemma ConsParts(x: Effect, rest: seq<Effect>)
    ensures ([x] + rest)[0] == x && ([x] + rest)[1..] == rest
  {
  }

  /** The effects of the triples stage two reads from token `i` on, in order. */
  function Effects(t: seq<string>, i: nat): (es: seq<Effect>)
    requires TriplesInBounds(t, i)
  {
    LastTripleInside(t, i);
    Stride(EffectTable(t), i, TripleCount(t, i))
  }

  /** The effects from token `i` are the first triple's, then those from token `i + 3`. */
  lemma EffectsCons(t: seq<string>, i: nat)
    requires TriplesInBounds(t, i) && i + 1 < |t|
    ensures TriplesInBounds(t, i + 3)
    ensures Effects(t, i) == [TripleEffect(t, i)] + Effects(t, i + 3)
  {
    LastTripleInside(t, i);
    StrideCons(EffectTable(t), i, TripleCount(t, i));
  }

  /** Effect number `m` is that of the triple starting at token `i + 3 * m`, and there is
      one exactly while that triple has two tokens. */
  lemma EffectsAt(t: seq<string>, i: nat, m: nat)
    requires TriplesInBounds(t, i)
    ensures m < |Effects(t, i)| <==> TripleStart(i, m) + 1 < |t|
    ensures m < |Effects(t, i)| ==>
              TriplesInBounds(t, TripleStart(i, m)) &&
              Effects(t, i)[m] == TripleEffect(t, TripleStart(i, m))
  {
    TripleCountIff(t, i, m);
    if TripleStart(i, m) + 1 < |t| {
      InBoundsAt(t, i, m);
    }
  }

  /** The record after a list of effects: the same fold as `Interpret`, on effects. */
  function Apply(es: seq<Effect>, slots: seq<Value>): (r: Parsed)
    requires |slots| == |Map|
    ensures |r.slots| == |Map|
  {
    if es == [] then Parsed(0, slots)
    else
      match es[0]
      case NoEffect => Apply(es[1..], slots)
      case Reject => Parsed(-1, slots)
      case Assign(idx, v) => Apply(es[1..], slots[idx := v])
  }

  /** Stage two on tokens is the fold of their effects. */
  lemma {:induction false} InterpretIsApply(t: seq<string>, i: nat, slots: seq<Value>)
    requires TriplesInBounds(t, i) && |slots| == |Map|
    ensures Interpret(t, i, slots) == Apply(Effects(t, i), slots)
    decreases |t| - i
  {
    if i + 1 < |t| {
      EffectsCons(t, i);
      ConsParts(TripleEffect(t, i), Effects(t, i + 3));
      match TripleEffect(t, i)
      case NoEffect => InterpretIsApply(t, i + 3, slots);
      case Reject =>
      case Assign(idx, v) => InterpretIsApply(t, i + 3, slots[idx := v]);
    }
  }

  /** The fold fails exactly when some effect rejects. */
  lemma {:induction false} ApplyFailsIff(es: seq<Effect>, slots: seq<Value>)
    requires |slots| == |Map|
    ensures Apply(es, slots).status == -1 <==> Reject in es
    ensures Apply(es, slots).status == 0 <==> Reject !in es
  {
    if es != [] {
      assert es == [es[0]] + es[1..];
      match es[0]
      case NoEffect => ApplyFailsIff(es[1..], slots);
      case Reject =>
      case Assign(idx, v) => ApplyFailsIff(es[1..], slots[idx := v]);
    }
  }

  /** A field no effect assigns keeps its value, whether or not the fold succeeds. */
  lemma {:induction false} ApplyKeeps(es: seq<Effect>, slots: seq<Value>, idx: FieldIndex)
    requires |slots| == |Map|
    requires forall k :: 0 <= k < |es| ==> !(es[k].Assign? && es[k].idx == idx)
    ensures Apply(es, slots).slots[idx] == slots[idx]
  {
    if es != [] {
      assert forall k :: 0 <= k < |es[1..]| ==> es[1..][k] == es[k + 1];
      match es[0]
      case NoEffect => ApplyKeeps(es[1..], slots, idx);
      case Reject =>
      case Assign(j, v) => ApplyKeeps(es[1..], slots[j := v], idx);
    }
  }

  /** When the fold succeeds, an assigned field holds the value of the last assignment to
      it. */
  lemma {:induction false} ApplyLastWins(es: seq<Effect>, slots: seq<Value>, k: nat)
    requires |slots| == |Map|
    requires Apply(es, slots).status == 0
    requires k < |es| && es[k].Assign?
    requires forall k' :: k < k' < |es| ==> !(es[k'].Assign? && es[k'].idx == es[k].idx)
    ensures Apply(es, slots).slots[es[k].idx] == es[k].v
    decreases k
  {
    assert forall j :: 0 <= j < |es[1..]| ==> es[1..][j] == es[j + 1];
    match es[0]
    case NoEffect =>
      ApplyLastWins(es[1..], slots, k - 1);
    case Reject =>
    case Assign(j, v) =>
      if k == 0 {
        ApplyKeeps(es[1..], slots[j := v], j);
      } else {
        ApplyLastWins(es[1..], slots[j := v], k - 1);
      }
  }

  // ---------------------------------------------------------------------------
  // The same facts on the tokens

  /** Stage two fails exactly when some triple it reads rejects (`EffectsAt` says which
      triple each effect belongs to). */
  lemma InterpretFailsIff(t: seq<string>, slots: seq<Value>)
    requires TriplesInBounds(t, 0) && |slots| == |Map|
    ensures Interpret(t, 0, slots).status == -1 <==> Reject in Effects(t, 0)
  {
    InterpretIsApply(t, 0, slots);
    ApplyFailsIff(Effects(t, 0), slots);
  }

  /** Whether stage two succeeds does not depend on the record it starts from. */
  lemma InterpretStatusIgnoresRecord(t: seq<string>, a: seq<Value>, b: seq<Value>)
    requires TriplesInBounds(t, 0) && |a| == |Map| && |b| == |Map|
    ensures Interpret(t, 0, a).status == Interpret(t, 0, b).status
  {
    InterpretIsApply(t, 0, a);
    InterpretIsApply(t, 0, b);
    ApplyFailsIff(Effects(t, 0), a);
    ApplyFailsIff(Effects(t, 0), b);
  }

  /** The triple at token `j` names field `idx`. */
  predicate Names(t: seq<string>, j: nat, idx: FieldIndex)
  {
    j + 1 < |t| && MapIndexOf(t[j]) == idx
  }

  /** A field no triple names keeps its value, whether or not stage two succeeds. */
  lemma UnnamedFieldKept(t: seq<string>, slots: seq<Value>, idx: FieldIndex)
    requires TriplesInBounds(t, 0) && |slots| == |Map|
    requires forall m: nat :: !Names(t, TripleStart(0, m), idx)
    ensures Interpret(t, 0, slots).slots[idx] == slots[idx]
  {
    InterpretIsApply(t, 0, slots);
    var es := Effects(t, 0);
    forall k | 0 <= k < |es|
      ensures !(es[k].Assign? && es[k].idx == idx)
    {
      EffectsAt(t, 0, k);
      assert !Names(t, TripleStart(0, k), idx);
    }
    ApplyKeeps(es, slots, idx);
  }

  /** When stage two succeeds, a field named by some triple holds the value of the last
      triple that names it: that triple has a value token, and the field holds what
      `Convert` makes of it. */
  lemma LastSettingWins(t: seq<string>, slots: seq<Value>, idx: FieldIndex, m: nat)
    requires TriplesInBounds(t, 0) && |slots| == |Map|
    requires Interpret(t, 0, slots).status == 0
    requires Names(t, TripleStart(0, m), idx)
    requires forall m': nat :: m < m' ==> !Names(t, TripleStart(0, m'), idx)
    ensures TripleStart(0, m) + 2 < |t|
    ensures Convert(Map[idx].kind, t[TripleStart(0, m) + 2]) == Some(Interpret(t, 0, slots).slots[idx])
  {
    InterpretIsApply(t, 0, slots);
    var es := Effects(t, 0);
    ApplyFailsIff(es, slots);
    EffectsAt(t, 0, m);
    var j := TripleStart(0, m);
    assert es[m] == TripleEffect(t, j);
    assert es[m] != Reject;
    assert es[m].Assign?;
    forall k | m < k < |es|
      ensures !(es[k].Assign? && es[k].idx == idx)
    {
      EffectsAt(t, 0, k);
      assert !Names(t, TripleStart(0, k), idx);
    }
    ApplyLastWins(es, slots, m);
  }

  // ---------------------------------------------------------------------------
  // The token rules on configuration lines

  /** A character that may appear in an unquoted word. */
  predicate WordChar(c: char)
  {
    c != ' ' && c != '\t' && c != '\n' && c != '#' && c != '"' && c != NUL
  }

  /** A bare word: one token by itself. It may hold a carriage return, but not first, where
      the return would be stepped over before the token starts. */
  predicate Bare(w: string)
  {
    |w| > 0 && w[0] != '\r' && forall k :: 0 <= k < |w| ==> WordChar(w[k])
  }

  /** A value that can be written between quotes: blanks and tabs allowed, no quote,
      newline, '#' or NUL. */
  predicate Quotable(v: string)
  {
    forall k :: 0 <= k < |v| ==> v[k] != '"' && v[k] != '\n' && v[k] != '#' && v[k] != NUL
  }

  /** A line of a configuration file. */
  datatype Line =
    | Setting(name: string, value: string, quoted: bool)
    | Comment(text: string)
    | Blank

  predicate WellFormed(l: Line)
  {
    match l
    case Setting(name, value, quoted) => Bare(name) && (if quoted then Quotable(value) else Bare(value))
    case Comment(text) => forall k :: 0 <= k < |text| ==> text[k] != '\n'
    case Blank => true
  }

  function RenderLine(l: Line): string
  {
    match l
    case Setting(name, value, quoted) =>
      name + " = " + (if quoted then "\"" + value + "\"" else value) + "\n"
    case Comment(text) => "#" + text + "\n"
    case Blank => "\n"
  }

  /** The text of each line, in order. */
  function Renderings(lines: seq<Line>): seq<string>
  {
    if lines == [] then [] else [RenderLine(lines[0])] + Renderings(lines[1..])
  }

  /** Pieces of text written one after the other. */
  function Concat(pieces: seq<string>): string
  {
    if pieces == [] then "" else pieces[0] + Concat(pieces[1..])
  }

  /** A configuration file written line by line. */
  function Render(lines: seq<Line>): string
  {
    Concat(Renderings(lines))
  }

  /** The tokens a line should give: the three parts of a setting, nothing otherwise. */
  function LineTokens(l: Line): seq<string>
  {
    match l
    case Setting(name, value, _) => [name, "=", value]
    case Comment(_) => []
    case Blank => []
  }

  function Triples(lines: seq<Line>): seq<string>
  {
    if lines == [] then [] else LineTokens(lines[0]) + Triples(lines[1..])
  }

  /** The lexer state between tokens, outside any string. */
  function Between(tokens: seq<string>): LexState
  {
    LexState(false, false, tokens, 0)
  }

  lemma AppendLast(tokens: seq<string>, x: string, c: char)
    ensures AppendOpen(tokens + [x], 1, c) == tokens + [x + [c]]
  {
    var r := AppendOpen(tokens + [x], 1, c);
    assert r[|tokens|] == x + [c];
  }

  lemma {:induction false} WordRest(s: string, p: nat, w: string, j: nat, tokens: seq<string>)
    requires Bare(w) && 1 <= j <= |w| && p + |w| <= |s| && s[p..p + |w|] == w
    ensures LexFrom(s, p + j, LexState(false, true, tokens + [w[..j]], 1))
         == LexFrom(s, p + |w|, LexState(false, true, tokens + [w], 1))
    decreases |w| - j
  {
    if j < |w| {
      var c := s[p + j];
      assert c == w[j];
      AppendLast(tokens, w[..j], c);
      assert w[..j] + [c] == w[..j + 1];
      assert LexStep(s, p + j, LexState(false, true, tokens + [w[..j]], 1))
          == (p + j + 1, LexState(false, true, tokens + [w[..j + 1]], 1));
      WordRest(s, p, w, j + 1, tokens);
    } else {
      assert w[..j] == w;
    }
  }

  /** A bare word outside a string becomes one open token. */
  lemma Word(s: string, p: nat, w: string, tokens: seq<string>)
    requires Bare(w) && p + |w| <= |s| && s[p..p + |w|] == w
    ensures LexFrom(s, p, Between(tokens)) == LexFrom(s, p + |w|, LexState(false, true, tokens + [w], 1))
  {
    var c := s[p];
    assert c == s[p..p + |w|][0] == w[0];
    assert WordChar(c) && c != '\r';
    AppendLast(tokens, "", c);
    assert "" + [c] == w[..1];
    var st := Between(tokens);
    assert st.tokens + [""] == tokens + [""];
    assert AppendOpen(st.tokens + [""], st.open + 1, c) == tokens + [w[..1]];
    assert LexStep(s, p, st) == (p + 1, LexState(false, true, tokens + [w[..1]], 1));
    WordRest(s, p, w, 1, tokens);
  }

  lemma {:induction false} QuotedRest(s: string, p: nat, v: string, j: nat, tokens: seq<string>)
    requires Quotable(v) && j <= |v| && p + |v| <= |s| && s[p..p + |v|] == v
    ensures LexFrom(s, p + j, LexState(true, true, tokens + [v[..j]], 1))
         == LexFrom(s, p + |v|, LexState(true, true, tokens + [v], 1))
    decreases |v| - j
  {
    if j < |v| {
      var c := s[p + j];
      assert c == v[j];
      AppendLast(tokens, v[..j], c);
      assert v[..j] + [c] == v[..j + 1];
      assert LexStep(s, p + j, LexState(true, true, tokens + [v[..j]], 1))
          == (p + j + 1, LexState(true, true, tokens + [v[..j + 1]], 1));
      QuotedRest(s, p, v, j + 1, tokens);
    } else {
      assert v[..j] == v;
    }
  }

  /** A quoted value, blanks included, becomes one token. */
  lemma Quoted(s: string, p: nat, v: string, tokens: seq<string>)
    requires Quotable(v) && p + |v| + 2 <= |s| && s[p..p + |v| + 2] == "\"" + v + "\""
    ensures LexFrom(s, p, Between(tokens)) == LexFrom(s, p + |v| + 2, Between(tokens + [v]))
  {
    var q := s[p..p + |v| + 2];
    assert s[p] == q[0] == '"';
    forall k | 0 <= k < |v|
      ensures s[p + 1 + k] == v[k]
    {
      assert q[1 + k] == v[k];
    }
    assert s[p + 1..p + 1 + |v|] == v;
    assert s[p + 1 + |v|] == q[1 + |v|] == '"';
    assert LexStep(s, p, Between(tokens)) == (p + 1, LexState(true, true, tokens + [""], 1));
    assert v[..0] == "";
    QuotedRest(s, p + 1, v, 0, tokens);
    var e := p + 1 + |v|;
    assert LexStep(s, e, LexState(true, true, tokens + [v], 1)) == (e + 1, Between(tokens + [v]));
  }

  /** A piece of text written at `p` as `a + b` has `a` at `p` and `b` right after it. */
  lemma SplitAt(s: string, p: nat, a: string, b: string)
    requires p + |a + b| <= |s| && s[p..p + |a + b|] == a + b
    ensures s[p..p + |a|] == a && s[p + |a|..p + |a| + |b|] == b
  {
    var x := s[p..p + |a + b|];
    assert x[..|a|] == a && x[|a|..] == b;
  }

  /** A blank or a newline outside a string closes the open token, if any. */
  lemma Closes(s: string, q: nat, st: LexState)
    requires q < |s| && LexOk(st) && !st.inString && (s[q] == ' ' || s[q] == '\n')
    ensures LexFrom(s, q, st) == LexFrom(s, q + 1, Between(st.tokens))
  {
    assert LexStep(s, q, st) == (q + 1, Between(st.tokens));
  }

  /** The value of a setting, from the state between tokens after the "=", up to and
      including the newline. */
  lemma LexValue(s: string, p: nat, value: string, quoted: bool, tokens: seq<string>)
    requires if quoted then Quotable(value) else Bare(value)
    requires var v := if quoted then "\"" + value + "\"" else value;
             p + |v| < |s| && s[p..p + |v|] == v && s[p + |v|] == '\n'
    ensures var v := if quoted then "\"" + value + "\"" else value;
            LexFrom(s, p, Between(tokens)) == LexFrom(s, p + |v| + 1, Between(tokens + [value]))
  {
    if quoted {
      Quoted(s, p, value, tokens);
      Closes(s, p + |value| + 2, Between(tokens + [value]));
    } else {
      Word(s, p, value, tokens);
      Closes(s, p + |value|, LexState(false, true, tokens + [value], 1));
    }
  }

  /** Where the parts of a setting line `name = v` lie when it is written at `p`. */
  lemma SettingText(s: string, p: nat, name: string, v: string)
    requires var r := name + " = " + v + "\n";
             p + |r| <= |s| && s[p..p + |r|] == r
    ensures var n := |name|;
            && s[p..p + n] == name && s[p + n] == ' ' && s[p + n + 1] == '=' && s[p + n + 2] == ' '
            && s[p + n + 3..p + n + 3 + |v|] == v && s[p + n + 3 + |v|] == '\n'
  {
    var n := |name|;
    var a := name + " = ";
    SplitAt(s, p, a + v, "\n");
    SplitAt(s, p, a, v);
    SplitAt(s, p, name, " = ");
    assert |a| == n + 3;
    var x := s[p + n..p + n + 3];
    assert x == " = ";
    assert s[p + n] == x[0] && s[p + n + 1] == x[1] && s[p + n + 2] == x[2];
    var y := s[p + |a + v|..p + |a + v| + 1];
    assert y == "\n";
    assert s[p + n + 3 + |v|] == y[0];
  }

  /** A bare name followed by a blank becomes one token. */
  lemma LexName(s: string, p: nat, name: string, tokens: seq<string>)
    requires Bare(name) && p + |name| < |s| && s[p..p + |name|] == name && s[p + |name|] == ' '
    ensures LexFrom(s, p, Between(tokens)) == LexFrom(s, p + |name| + 1, Between(tokens + [name]))
  {
    Word(s, p, name, tokens);
    Closes(s, p + |name|, LexState(false, true, tokens + [name], 1));
  }

  /** "=" followed by a blank becomes the token "=". */
  lemma LexEquals(s: string, q: nat, tokens: seq<string>)
    requires q + 1 < |s| && s[q] == '=' && s[q + 1] == ' '
    ensures LexFrom(s, q, Between(tokens)) == LexFrom(s, q + 2, Between(tokens + ["="]))
  {
    assert s[q..q + 1] == "=";
    Word(s, q, "=", tokens);
    Closes(s, q + 1, LexState(false, true, tokens + ["="], 1));
  }

  /** The name of a setting, blank, "=" and blank: the name and "=" become tokens. */
  lemma LexNameEquals(s: string, p: nat, name: string, tokens: seq<string>)
    requires Bare(name)
    requires var n := |name|;
             && p + n + 3 <= |s| && s[p..p + n] == name
             && s[p + n] == ' ' && s[p + n + 1] == '=' && s[p + n + 2] == ' '
    ensures LexFrom(s, p, Between(tokens)) == LexFrom(s, p + |name| + 3, Between(tokens + [name, "="]))
  {
    LexName(s, p, name, tokens);
    LexEquals(s, p + |name| + 1, tokens + [name]);
    assert tokens + [name] + ["="] == tokens + [name, "="];
  }

  /** A setting line adds its name, "=" and value. */
  lemma LexSetting(s: string, p: nat, name: string, value: string, quoted: bool, tokens: seq<string>)
    requires WellFormed(Setting(name, value, quoted))
    requires var r := RenderLine(Setting(name, value, quoted));
             p + |r| <= |s| && s[p..p + |r|] == r
    ensures var r := RenderLine(Setting(name, value, quoted));
            LexFrom(s, p, Between(tokens)) == LexFrom(s, p + |r|, Between(tokens + [name, "=", value]))
  {
    var v := if quoted then "\"" + value + "\"" else value;
    var r := RenderLine(Setting(name, value, quoted));
    assert r == name + " = " + v + "\n";
    SettingText(s, p, name, v);
    var q := p + |name| + 3;
    assert p + |r| == q + |v| + 1;
    var t2 := tokens + [name, "="];
    calc {
      LexFrom(s, p, Between(tokens));
      { LexNameEquals(s, p, name, tokens); }
      LexFrom(s, q, Between(t2));
      { LexValue(s, q, value, quoted, t2); }
      LexFrom(s, q + |v| + 1, Between(t2 + [value]));
      { assert t2 + [value] == tokens + [name, "=", value]; }
      LexFrom(s, p + |r|, Between(tokens + [name, "=", value]));
    }
  }

  /** A comment line adds nothing: '#' skips to the newline, which closes nothing. */
  lemma LexComment(s: string, p: nat, text: string, tokens: seq<string>)
    requires WellFormed(Comment(text))
    requires p + |text| + 2 <= |s| && s[p..p + |text| + 2] == "#" + text + "\n"
    ensures LexFrom(s, p, Between(tokens)) == LexFrom(s, p + |text| + 2, Between(tokens))
  {
    var x := s[p..p + |text| + 2];
    assert s[p] == x[0] == '#';
    var e := p + 1 + |text|;
    assert s[e] == x[1 + |text|] == '\n';
    forall k | p + 1 <= k < e
      ensures s[k] != '\n'
    {
      assert s[k] == x[k - p] == text[k - p - 1];
    }
    LineEndIs(s, p + 1, e);
    assert LexStep(s, p, Between(tokens)) == (e, Between(tokens));
    assert LexStep(s, e, Between(tokens)) == (e + 1, Between(tokens));
  }

  lemma {:induction false} LineEndIs(s: string, i: nat, e: nat)
    requires i <= e < |s| && s[e] == '\n'
    requires forall k :: i <= k < e ==> s[k] != '\n'
    ensures LineEnd(s, |s|, i) == e
    decreases e - i
  {
    if i < e {
      LineEndIs(s, i + 1, e);
    }
  }

  /** A well-formed line, lexed from the state between tokens, adds its tokens and ends
      between tokens. */
  lemma LexLine(s: string, p: nat, l: Line, tokens: seq<string>)
    requires WellFormed(l)
    requires p + |RenderLine(l)| <= |s| && s[p..p + |RenderLine(l)|] == RenderLine(l)
    ensures LexFrom(s, p, Between(tokens))
         == LexFrom(s, p + |RenderLine(l)|, Between(tokens + LineTokens(l)))
  {
    match l
    case Setting(name, value, quoted) =>
      LexSetting(s, p, name, value, quoted, tokens);
    case Comment(text) =>
      LexComment(s, p, text, tokens);
      assert tokens + LineTokens(l) == tokens;
    case Blank =>
      assert s[p] == s[p..p + 1][0] == '\n';
      Closes(s, p, Between(tokens));
      assert tokens + LineTokens(l) == tokens;
  }

  lemma TriplesCons(tokens: seq<string>, lines: seq<Line>)
    requires lines != []
    ensures tokens + Triples(lines) == tokens + LineTokens(lines[0]) + Triples(lines[1..])
  {
  }

  /** Every line well formed, stated line by line. */
  predicate AllWellFormed(lines: seq<Line>)
  {
    lines == [] || (WellFormed(lines[0]) && AllWellFormed(lines[1..]))
  }

  lemma {:induction false} AllWellFormedOf(lines: seq<Line>)
    requires forall k :: 0 <= k < |lines| ==> WellFormed(lines[k])
    ensures AllWellFormed(lines)
  {
    if lines != [] {
      assert forall k :: 0 <= k < |lines[1..]| ==> lines[1..][k] == lines[k + 1];
      AllWellFormedOf(lines[1..]);
    }
  }

  /** `s` holds, from `p` to its end, the `pieces` one after the other. */
  predicate PiecesAt(s: string, p: nat, pieces: seq<string>)
    decreases |pieces|
  {
    if pieces == [] then p == |s|
    else
      && p + |pieces[0]| <= |s| && s[p..p + |pieces[0]|] == pieces[0]
      && PiecesAt(s, p + |pieces[0]|, pieces[1..])
  }

  lemma {:induction false} PiecesAtOf(s: string, p: nat, pieces: seq<string>)
    requires p <= |s| && s[p..] == Concat(pieces)
    ensures PiecesAt(s, p, pieces)
    decreases |pieces|
  {
    if pieces != [] {
      SplitTail(s, p, pieces[0], Concat(pieces[1..]));
      PiecesAtOf(s, p + |pieces[0]|, pieces[1..]);
    }
  }

  lemma PiecesAtHead(s: string, p: nat, x: string, pieces: seq<string>)
    requires PiecesAt(s, p, [x] + pieces)
    ensures p + |x| <= |s| && s[p..p + |x|] == x && PiecesAt(s, p + |x|, pieces)
  {
    assert ([x] + pieces)[0] == x && ([x] + pieces)[1..] == pieces;
  }

  lemma {:induction false} LexLines(s: string, p: nat, lines: seq<Line>, tokens: seq<string>)
    requires AllWellFormed(lines) && PiecesAt(s, p, Renderings(lines))
    ensures LexFrom(s, p, Between(tokens)) == tokens + Triples(lines)
    decreases |lines|
  {
    if lines != [] {
      PiecesAtHead(s, p, RenderLine(lines[0]), Renderings(lines[1..]));
      LexLines(s, p + |RenderLine(lines[0])|, lines[1..], tokens + LineTokens(lines[0]));
      LexLinesStep(s, p, lines, tokens);
    }
  }

  /** Text that ends with `a + b` from `p` holds `a` at `p`, then `b` up to its end. */
  lemma SplitTail(s: string, p: nat, a: string, b: string)
    requires p <= |s| && s[p..] == a + b
    ensures p + |a| <= |s| && s[p..p + |a|] == a && s[p + |a|..] == b
  {
    assert s[p..][..|a|] == a && s[p..][|a|..] == b;
  }

  /** The first line's tokens, then those of the others. */
  lemma LexLinesStep(s: string, p: nat, lines: seq<Line>, tokens: seq<string>)
    requires lines != [] && WellFormed(lines[0])
    requires var n := |RenderLine(lines[0])|;
             && p + n <= |s| && s[p..p + n] == RenderLine(lines[0])
             && LexFrom(s, p + n, Between(tokens + LineTokens(lines[0])))
                == tokens + LineTokens(lines[0]) + Triples(lines[1..])
    ensures LexFrom(s, p, Between(tokens)) == tokens + Triples(lines)
  {
    LexLine(s, p, lines[0], tokens);
    TriplesCons(tokens, lines);
  }

  /** A configuration file written as well-formed lines gives exactly the name, "=" and
      value of each setting, in order: blanks separate tokens, quotes keep blanks inside a
      value, comments and empty lines give nothing, and a carriage return before the newline
      stays at the end of the value. */
  lemma LexRender(lines: seq<Line>)
    requires forall k :: 0 <= k < |lines| ==> WellFormed(lines[k])
    ensures Lex(Render(lines)) == Triples(lines)
  {
    var s := Render(lines);
    assert s[0..] == s;
    AllWellFormedOf(lines);
    PiecesAtOf(s, 0, Renderings(lines));
    LexLines(s, 0, lines, []);
  }
}
