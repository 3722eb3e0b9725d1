/** `ParseContent`: the two-stage configuration parser.

    Stage one scans the NUL-terminated buffer in place: it overwrites delimiters with NUL
    and records where each item starts, so each item is read back as the C string at its
    start. The method `SplitItems` is proved against the step function `Scan`, and the
    lemma `ItemsSpellTokens` shows that the C strings at the recorded starts are exactly
    the tokens of the reference lexer `Lex`, which states the token rules on plain text.

    Stage two reads the tokens three at a time as `name = value` and stores values into
    the parameter record; `Interpret` states it on token texts. */
module ConfigParse {
  import opened CText
  import opened Config

  // ---------------------------------------------------------------------------
  // Stage one on the buffer

  /** First index at or after `i`, below `n`, holding a newline; `n` when there is none. */
  function LineEnd(buf: seq<char>, n: nat, i: nat): (q: nat)
    requires i <= n <= |buf|
    ensures i <= q <= n
    ensures forall k :: i <= k < q ==> buf[k] != '\n'
    ensures q < n ==> buf[q] == '\n'
    decreases n - i
  {
    if i == n || buf[i] == '\n' then i else LineEnd(buf, n, i + 1)
  }

  /** The state of the scanning loop of stage one: the buffer, the position `p`, the two
      flags and the item starts recorded so far. */
  datatype ScanState = ScanState(buf: seq<char>, p: nat, inString: bool, inItem: bool,
                                 items: seq<nat>)

  /** One turn of the scanning loop, on a buffer whose first `n` characters are the
      content. It writes at most one NUL, at `p`, and records at most one start. */
  function ScanStep(st: ScanState, n: nat): (r: ScanState)
    requires st.p < n <= |st.buf|
    ensures st.p < r.p <= n && |r.buf| == |st.buf|
    ensures r.buf == st.buf || r.buf == st.buf[st.p := NUL]
    ensures |st.items| <= |r.items| <= |st.items| + 1 && r.items[..|st.items|] == st.items
    ensures |r.items| > |st.items| ==> st.p <= r.items[|st.items|] <= st.p + 1
  {
    var buf, p := st.buf, st.p;
    if buf[p] == '\r' then st.(p := p + 1)
    else if buf[p] == '#' then
      var b := buf[p := NUL];
      ScanState(b, LineEnd(b, n, p), false, false, st.items)
    else if buf[p] == '\n' then
      ScanState(buf[p := NUL], p + 1, false, false, st.items)
    else if buf[p] == ' ' || buf[p] == '\t' then
      if st.inString then st.(p := p + 1)
      else st.(buf := buf[p := NUL], p := p + 1, inItem := false)
    else if buf[p] == '"' then
      if !st.inString then ScanState(buf[p := NUL], p + 1, true, !st.inItem, st.items + [p + 1])
      else ScanState(buf[p := NUL], p + 1, false, false, st.items)
    else if !st.inItem then
      st.(p := p + 1, inItem := true, items := st.items + [p])
    else
      st.(p := p + 1)
  }

  /** The scanning loop of stage one run to position `n`. Only NULs are written, only
      inside the content, and every start recorded lies inside the content or just
      after it. */
  function Scan(st: ScanState, n: nat): (r: ScanState)
    requires st.p <= n <= |st.buf|
    ensures r.p == n && |r.buf| == |st.buf|
    ensures forall k :: 0 <= k < |st.buf| ==> r.buf[k] == st.buf[k] || (st.p <= k < n && r.buf[k] == NUL)
    ensures |st.items| <= |r.items| && r.items[..|st.items|] == st.items
    ensures forall k :: |st.items| <= k < |r.items| ==> st.p <= r.items[k] <= n
    decreases n - st.p
  {
    if st.p == n then st else Scan(ScanStep(st, n), n)
  }

  lemma ScanAdvance(st: ScanState, n: nat)
    requires st.p < n <= |st.buf|
    ensures Scan(st, n) == Scan(ScanStep(st, n), n)
  {
  }

  /** The state the scanning loop starts in. */
  function ScanStart(buf: seq<char>): ScanState
  {
    ScanState(buf, 0, false, false, [])
  }

  /** The comment branch of the scanning loop: the '#' becomes a NUL and the scan moves to
      the newline that ends the line (or to the end of the content). */
  method CutComment(buf: array<char>, p: nat, bufsize: nat) returns (q: nat)
    requires p < bufsize < buf.Length
    modifies buf
    ensures buf[..] == old(buf[..])[p := NUL]
    ensures q == LineEnd(buf[..], bufsize, p)
  {
    buf[p] := NUL;
    q := p;
    while q < bufsize && buf[q] != '\n'
      invariant p <= q <= bufsize
      invariant LineEnd(buf[..], bufsize, q) == LineEnd(buf[..], bufsize, p)
      decreases bufsize - q
    {
      q := q + 1;
    }
  }

  /** One turn of the scanning loop of stage one on the buffer, at `p`. */
  method ScanTurn(buf: array<char>, bufsize: nat, p: nat, inString: bool, inItem: bool,
                  items: seq<nat>)
    returns (p': nat, inString': bool, inItem': bool, items': seq<nat>)
    requires p < bufsize < buf.Length
    modifies buf
    ensures ScanState(buf[..], p', inString', inItem', items')
         == ScanStep(ScanState(old(buf[..]), p, inString, inItem, items), bufsize)
  {
    p', inString', inItem', items' := p, inString, inItem, items;
    var c := buf[p];
    if c == '\r' {
      p' := p + 1;
    } else if c == '#' {
      p' := CutComment(buf, p, bufsize);
      inString', inItem' := false, false;
    } else if c == '\n' {
      inItem', inString' := false, false;
      buf[p] := NUL;
      p' := p + 1;
    } else if c == ' ' || c == '\t' {
      if !inString {
        buf[p] := NUL;
        inItem' := false;
      }
      p' := p + 1;
    } else if c == '"' {
      buf[p] := NUL;
      p' := p + 1;
      if !inString {
        items' := items + [p'];
        inItem' := !inItem;
      } else {
        inItem' := false;
      }
      inString' := !inString;
    } else {
      if !inItem {
        items' := items + [p];
        inItem' := true;
      }
      p' := p + 1;
    }
  }

  /** Stage one of `ParseContent`: the in-place scan of `buf[..bufsize]`. Returns the item
      starts; every delimiter it consumed is now a NUL. */
  method SplitItems(buf: array<char>, bufsize: nat) returns (items: seq<nat>)
    requires bufsize < buf.Length
    modifies buf
    ensures var r := Scan(ScanStart(old(buf[..])), bufsize); buf[..] == r.buf && items == r.items
  {
    var p := 0;
    var inString, inItem := false, false;
    items := [];
    while p < bufsize
      invariant 0 <= p <= bufsize
      invariant Scan(ScanState(buf[..], p, inString, inItem, items), bufsize)
             == Scan(ScanStart(old(buf[..])), bufsize)
      decreases bufsize - p
    {
      ghost var before := ScanState(buf[..], p, inString, inItem, items);
      ScanAdvance(before, bufsize);
      p, inString, inItem, items := ScanTurn(buf, bufsize, p, inString, inItem, items);
    }
  }

  // ---------------------------------------------------------------------------
  // Stage one on text: the token rules

  /** Appends `c` to each of the last `open` tokens (the items whose C string has not been
      terminated yet). */
  function AppendOpen(tokens: seq<string>, open: nat, c: char): (r: seq<string>)
    requires open <= |tokens|
    ensures |r| == |tokens|
    ensures forall k :: 0 <= k < |tokens| - open ==> r[k] == tokens[k]
    ensures forall k :: |tokens| - open <= k < |tokens| ==> r[k] == tokens[k] + [c]
  {
    seq(|tokens|, k requires 0 <= k < |tokens| =>
      if k < |tokens| - open then tokens[k] else tokens[k] + [c])
  }

  /** The lexer state at a position of the text: the two flags, the tokens so far, and how
      many of the last tokens are still open (still growing). */
  datatype LexState = LexState(inString: bool, inItem: bool, tokens: seq<string>, open: nat)

  predicate LexOk(st: LexState)
  {
    st.open <= |st.tokens|
  }

  /** The token rules for the character at `p`; returns the next position and state. A
      carriage return is kept inside open tokens and never starts one; `#` ends every token
      and drops the rest of the line; a newline ends every token and leaves any string; a
      blank or tab ends every token outside a string and is kept inside one; a quote
      outside a string ends every token and opens a new one (possibly empty) after it, and
      inside a string ends every token; any other character starts a token unless one is
      under way, and is kept. The item flag is toggled, not set, by an opening quote, so a
      quote inside a bare word starts a second token while the first stays open. */
  function LexStep(s: string, p: nat, st: LexState): (r: (nat, LexState))
    requires p < |s| && LexOk(st)
    ensures p < r.0 <= |s| && LexOk(r.1)
  {
    var c := s[p];
    var closed := LexState(false, false, st.tokens, 0);
    if c == '\r' then (p + 1, st.(tokens := AppendOpen(st.tokens, st.open, c)))
    else if c == '#' then (LineEnd(s, |s|, p + 1), closed)
    else if c == '\n' then (p + 1, closed)
    else if c == ' ' || c == '\t' then
      if st.inString then (p + 1, st.(tokens := AppendOpen(st.tokens, st.open, c)))
      else (p + 1, closed)
    else if c == '"' then
      if !st.inString then (p + 1, LexState(true, !st.inItem, st.tokens + [""], 1))
      else (p + 1, closed)
    else if !st.inItem then
      (p + 1, st.(inItem := true, tokens := AppendOpen(st.tokens + [""], st.open + 1, c),
                  open := st.open + 1))
    else
      (p + 1, st.(tokens := AppendOpen(st.tokens, st.open, c)))
  }

  /** The tokens of `s[p..]` from lexer state `st`. */
  function LexFrom(s: string, p: nat, st: LexState): seq<string>
    requires p <= |s| && LexOk(st)
    decreases |s| - p
  {
    if p == |s| then st.tokens
    else
      var (q, next) := LexStep(s, p, st);
      LexFrom(s, q, next)
  }

  /** A step adds at most one token. */
  lemma LexStepCount(s: string, p: nat, st: LexState)
    requires p < |s| && LexOk(st)
    ensures |LexStep(s, p, st).1.tokens| <= |st.tokens| + 1
  {
  }

  /** The rest of the text adds at most one token per character. */
  lemma {:induction false} LexFromCount(s: string, p: nat, st: LexState)
    requires p <= |s| && LexOk(st)
    ensures |LexFrom(s, p, st)| <= |st.tokens| + (|s| - p)
    decreases |s| - p
  {
    if p < |s| {
      var (q, next) := LexStep(s, p, st);
      LexStepCount(s, p, st);
      LexFromCount(s, q, next);
    }
  }

  /** The tokens of a whole configuration text: never more than its characters. */
  function Lex(s: string): (r: seq<string>)
    ensures |r| <= |s|
  {
    LexFromCount(s, 0, LexState(false, false, [], 0));
    LexFrom(s, 0, LexState(false, false, [], 0))
  }

  // ---------------------------------------------------------------------------
  // Stage one on the buffer spells the tokens of stage one on text

  /** Every closed token, all but the last `open`, is the C string at its start, and that
      C string ends before `p`. */
  ghost predicate ClosedSpelled(buf: seq<char>, items: seq<nat>, tokens: seq<string>, open: nat, p: nat)
  {
    && |items| == |tokens| && open <= |items|
    && forall k :: 0 <= k < |items| - open ==>
         items[k] <= |buf| && CEnd(buf, items[k]) < p && CStringAt(buf, items[k]) == tokens[k]
  }

  /** Every open token, the last `open`, is the NUL-free run from its start up to `p`. */
  ghost predicate OpenSpelled(buf: seq<char>, items: seq<nat>, tokens: seq<string>, open: nat, p: nat)
  {
    && |items| == |tokens| && open <= |items| && p <= |buf|
    && forall k :: |items| - open <= k < |items| ==>
         items[k] <= p <= CEnd(buf, items[k]) && buf[items[k]..p] == tokens[k]
  }

  /** How the scan state at position `p` relates to the lexer state at `p` on the content
      `s`: same flags, the unscanned part is still the text, and the tokens are spelled
      by the buffer as `ClosedSpelled` and `OpenSpelled` say. */
  ghost predicate Corr(s: string, sc: ScanState, lx: LexState)
  {
    var buf, p, items, tokens, open := sc.buf, sc.p, sc.items, lx.tokens, lx.open;
    && NulFree(s) && |s| < |buf| && buf[|s|] == NUL && p <= |s|
    && sc.inString == lx.inString && sc.inItem == lx.inItem
    && (forall k :: p <= k < |s| ==> buf[k] == s[k])
    && (forall k :: 0 <= k < |items| ==> items[k] <= p)
    && ClosedSpelled(buf, items, tokens, open, p)
    && OpenSpelled(buf, items, tokens, open, p)
  }

  lemma KeepClosed(buf: seq<char>, items: seq<nat>, tokens: seq<string>, open: nat, p: nat, c: char)
    requires ClosedSpelled(buf, items, tokens, open, p)
    ensures ClosedSpelled(buf, items, AppendOpen(tokens, open, c), open, p + 1)
  {
  }

  lemma KeepOpen(buf: seq<char>, items: seq<nat>, tokens: seq<string>, open: nat, p: nat)
    requires OpenSpelled(buf, items, tokens, open, p) && p < |buf| && buf[p] != NUL
    ensures OpenSpelled(buf, items, AppendOpen(tokens, open, buf[p]), open, p + 1)
  {
    var t := AppendOpen(tokens, open, buf[p]);
    forall k | |items| - open <= k < |items|
      ensures p + 1 <= CEnd(buf, items[k]) && buf[items[k]..p + 1] == t[k]
    {
      assert buf[items[k]..p + 1] == buf[items[k]..p] + [buf[p]];
    }
  }

  /** A kept character extends every open token. */
  lemma KeepChar(s: string, sc: ScanState, lx: LexState)
    requires Corr(s, sc, lx) && sc.p < |s|
    ensures Corr(s, sc.(p := sc.p + 1), lx.(tokens := AppendOpen(lx.tokens, lx.open, s[sc.p])))
  {
    var buf, p := sc.buf, sc.p;
    assert buf[p] == s[p] != NUL;
    KeepClosed(buf, sc.items, lx.tokens, lx.open, p, s[p]);
    KeepOpen(buf, sc.items, lx.tokens, lx.open, p);
  }

  /** Writing a NUL at `p` terminates every open token there. */
  lemma CloseAll(s: string, sc: ScanState, lx: LexState, inString: bool, inItem: bool)
    requires Corr(s, sc, lx) && sc.p < |s|
    ensures Corr(s, ScanState(sc.buf[sc.p := NUL], sc.p + 1, inString, inItem, sc.items),
                 LexState(inString, inItem, lx.tokens, 0))
  {
    var buf, p, items, tokens, open := sc.buf, sc.p, sc.items, lx.tokens, lx.open;
    var b := buf[p := NUL];
    forall k | 0 <= k < |items|
      ensures CEnd(b, items[k]) < p + 1 && CStringAt(b, items[k]) == tokens[k]
    {
      var i := items[k];
      if k < |items| - open {
        var e := CEnd(buf, i);
        assert forall j :: i <= j < e ==> b[j] != NUL;
        CEndIs(b, i, e);
        assert b[i..e] == buf[i..e];
      } else {
        assert forall j :: i <= j < p ==> buf[j] != NUL;
        assert forall j :: i <= j < p ==> b[j] != NUL;
        CEndIs(b, i, p);
        assert b[i..p] == buf[i..p];
      }
    }
  }

  /** Recording a start at `p` opens an empty token. */
  lemma OpenToken(s: string, sc: ScanState, lx: LexState)
    requires Corr(s, sc, lx)
    ensures Corr(s, sc.(items := sc.items + [sc.p]),
                 lx.(tokens := lx.tokens + [""], open := lx.open + 1))
  {
  }

  /** With no open token, skipping text changes nothing already found. */
  lemma Skip(s: string, sc: ScanState, lx: LexState, q: nat)
    requires Corr(s, sc, lx) && lx.open == 0 && sc.p <= q <= |s|
    ensures Corr(s, sc.(p := q), lx)
  {
  }

  lemma {:induction false} LineEndAgree(a: seq<char>, b: seq<char>, n: nat, i: nat)
    requires i <= n <= |a| && n <= |b|
    requires forall k :: i <= k < n ==> a[k] == b[k]
    ensures LineEnd(a, n, i) == LineEnd(b, n, i)
    decreases n - i
  {
    if i < n && a[i] != '\n' {
      LineEndAgree(a, b, n, i + 1);
    }
  }

  /** A character the scan steps over: it joins every open token. */
  lemma StepKeep(s: string, sc: ScanState, lx: LexState)
    requires Corr(s, sc, lx) && sc.p < |s|
    requires var c := s[sc.p];
             c == '\r' || ((c == ' ' || c == '\t') && sc.inString) ||
             (c !in "#\n \t\"" && sc.inItem)
    ensures var next := LexStep(s, sc.p, lx);
            var sc' := ScanStep(sc, |s|);
            sc'.p == next.0 && Corr(s, sc', next.1)
  {
    var p, n := sc.p, |s|;
    assert sc.buf[p] == s[p];
    KeepChar(s, sc, lx);
    assert ScanStep(sc, n) == sc.(p := p + 1);
    assert LexStep(s, p, lx) == (p + 1, lx.(tokens := AppendOpen(lx.tokens, lx.open, s[p])));
  }

  /** A comment: everything open ends at the '#', and the scan resumes at the newline. */
  lemma StepComment(s: string, sc: ScanState, lx: LexState)
    requires Corr(s, sc, lx) && sc.p < |s|
    requires s[sc.p] == '#'
    ensures var next := LexStep(s, sc.p, lx);
            var sc' := ScanStep(sc, |s|);
            sc'.p == next.0 && Corr(s, sc', next.1)
  {
    var buf, p, n := sc.buf, sc.p, |s|;
    assert buf[p] == '#';
    var b := buf[p := NUL];
    CloseAll(s, sc, lx, false, false);
    var q := LineEnd(s, n, p + 1);
    assert LineEnd(b, n, p) == LineEnd(b, n, p + 1);
    LineEndAgree(b, s, n, p + 1);
    Skip(s, ScanState(b, p + 1, false, false, sc.items), LexState(false, false, lx.tokens, 0), q);
    assert ScanStep(sc, n) == ScanState(b, q, false, false, sc.items);
    assert LexStep(s, p, lx) == (q, LexState(false, false, lx.tokens, 0));
  }

  /** A delimiter that ends everything open and clears both flags. */
  lemma StepClose(s: string, sc: ScanState, lx: LexState)
    requires Corr(s, sc, lx) && sc.p < |s|
    requires var c := s[sc.p];
             c == '\n' || ((c == ' ' || c == '\t') && !sc.inString) || (c == '"' && sc.inString)
    ensures var next := LexStep(s, sc.p, lx);
            var sc' := ScanStep(sc, |s|);
            sc'.p == next.0 && Corr(s, sc', next.1)
  {
    var buf, p, n := sc.buf, sc.p, |s|;
    assert buf[p] == s[p];
    CloseAll(s, sc, lx, false, false);
    assert ScanStep(sc, n) == ScanState(buf[p := NUL], p + 1, false, false, sc.items);
    assert LexStep(s, p, lx) == (p + 1, LexState(false, false, lx.tokens, 0));
  }

  /** An opening quote: everything open ends, and a token starts after the quote. */
  lemma StepQuote(s: string, sc: ScanState, lx: LexState)
    requires Corr(s, sc, lx) && sc.p < |s|
    requires s[sc.p] == '"' && !sc.inString
    ensures var next := LexStep(s, sc.p, lx);
            var sc' := ScanStep(sc, |s|);
            sc'.p == next.0 && Corr(s, sc', next.1)
  {
    var buf, p, n := sc.buf, sc.p, |s|;
    assert buf[p] == '"';
    var sc1 := ScanState(buf[p := NUL], p + 1, true, !sc.inItem, sc.items);
    var lx1 := LexState(true, !sc.inItem, lx.tokens, 0);
    CloseAll(s, sc, lx, true, !sc.inItem);
    OpenToken(s, sc1, lx1);
    assert ScanStep(sc, n) == sc1.(items := sc.items + [p + 1]);
    assert LexStep(s, p, lx) == (p + 1, lx1.(tokens := lx.tokens + [""], open := 1));
  }

  /** A character that starts a token. */
  lemma StepStart(s: string, sc: ScanState, lx: LexState)
    requires Corr(s, sc, lx) && sc.p < |s|
    requires s[sc.p] !in "\r#\n \t\"" && !sc.inItem
    ensures var next := LexStep(s, sc.p, lx);
            var sc' := ScanStep(sc, |s|);
            sc'.p == next.0 && Corr(s, sc', next.1)
  {
    var buf, p, n := sc.buf, sc.p, |s|;
    var c := s[p];
    assert buf[p] == c;
    var sc1 := sc.(items := sc.items + [p]);
    var lx1 := lx.(tokens := lx.tokens + [""], open := lx.open + 1);
    OpenToken(s, sc, lx);
    KeepChar(s, sc1, lx1);
    assert ScanStep(sc, n) == sc1.(p := p + 1, inItem := true);
    assert LexStep(s, p, lx)
        == (p + 1, lx1.(inItem := true, tokens := AppendOpen(lx1.tokens, lx1.open, c)));
  }

  /** One turn of the scanning loop and one step of the token rules keep the two related. */
  lemma StepCorr(s: string, sc: ScanState, lx: LexState)
    requires Corr(s, sc, lx) && sc.p < |s|
    ensures var next := LexStep(s, sc.p, lx);
            var sc' := ScanStep(sc, |s|);
            sc'.p == next.0 && Corr(s, sc', next.1)
  {
    var c := s[sc.p];
    if c == '#' {
      StepComment(s, sc, lx);
    } else if c == '"' && !sc.inString {
      StepQuote(s, sc, lx);
    } else if c == '\n' || ((c == ' ' || c == '\t') && !sc.inString) || (c == '"' && sc.inString) {
      StepClose(s, sc, lx);
    } else if c != '\r' && c !in "#\n \t\"" && !sc.inItem {
      StepStart(s, sc, lx);
    } else {
      StepKeep(s, sc, lx);
    }
  }

  lemma {:induction false} ScanLex(s: string, sc: ScanState, lx: LexState)
    requires Corr(s, sc, lx)
    ensures var r := Scan(sc, |s|);
            var t := LexFrom(s, sc.p, lx);
            |r.items| == |t| &&
            forall k :: 0 <= k < |t| ==> r.items[k] <= |s| && CStringAt(r.buf, r.items[k]) == t[k]
    decreases |s| - sc.p
  {
    if sc.p == |s| {
      forall k | |sc.items| - lx.open <= k < |sc.items|
        ensures CStringAt(sc.buf, sc.items[k]) == lx.tokens[k]
      {
        assert CEnd(sc.buf, sc.items[k]) == |s|;
      }
    } else {
      StepCorr(s, sc, lx);
      var next := LexStep(s, sc.p, lx);
      ScanLex(s, ScanStep(sc, |s|), next.1);
    }
  }

  /** After the scan of a NUL-terminated content without an embedded NUL, the C string at
      the k-th recorded start is the k-th token of the content. */
  lemma ItemsSpellTokens(buf: seq<char>, n: nat)
    requires n < |buf| && buf[n] == NUL && NulFree(buf[..n])
    ensures var r := Scan(ScanStart(buf), n);
            var t := Lex(buf[..n]);
            |r.items| == |t| &&
            forall k :: 0 <= k < |t| ==> r.items[k] <= n && CStringAt(r.buf, r.items[k]) == t[k]
  {
    ScanLex(buf[..n], ScanStart(buf), LexState(false, false, [], 0));
  }

  // ---------------------------------------------------------------------------
  // Stage two: name = value triples

  /** What `strncpy` into a `char[STRING_SIZE]` field keeps of a value. */
  function Stored(t: string): (r: string)
    ensures |r| <= STRING_SIZE && r <= t
    ensures |t| <= STRING_SIZE ==> r == t
  {
    if |t| <= STRING_SIZE then t else t[..STRING_SIZE]
  }

  /** The scan of stage two, from token `i` on in steps of three, never reads a third
      token that is not there: if it stops with two tokens left, those two are not a known
      name followed by "=". (The source reads an item it never set in that case.) */
  predicate TriplesInBounds(t: seq<string>, i: nat)
    decreases |t| - i
  {
    if |t| < i + 2 then true
    else if |t| == i + 2 then !(MapIndexOf(t[i]) >= 0 && StrCaseEq("=", t[i + 1]))
    else TriplesInBounds(t, i + 3)
  }

  /** A content stage two can take: no embedded NUL, at most `MAX_ITEMS_TO_PARSE` tokens,
      and no read past the last token. */
  predicate Parsable(s: string)
  {
    NulFree(s) && |Lex(s)| <= MAX_ITEMS_TO_PARSE && TriplesInBounds(Lex(s), 0)
  }

  datatype Parsed = Parsed(status: int, slots: seq<Value>)

  /** What one `name = value` triple does to the record: nothing (the name is not in
      `Map`), stop with -1 (no "=", or an int value `sscanf` cannot read), or store a
      value into field `idx`. */
  datatype Effect = NoEffect | Reject | Assign(idx: FieldIndex, v: Value)

  /** The field value a value token gives: the `sscanf("%d")` number for an int field
      (`None` when there is none), the stored prefix for a text field. */
  function Convert(k: Kind, text: string): (v: Option<Value>)
    ensures v.Some? ==> Fits(v.value, k)
    ensures k == TextKind ==> v == Some(TextValue(Stored(text)))
    ensures k == IntKind ==> (v.Some? <==> ScanInt(text).Some?)
    ensures k == IntKind && v.Some? ==> v.value == IntValue(ScanInt(text).value)
  {
    match k
    case IntKind => (match ScanInt(text) case None => None case Some(n) => Some(IntValue(n)))
    case TextKind => Some(TextValue(Stored(text)))
  }

  /** The effect of the triple that starts at token `i`. The name is looked up ignoring
      case; a known name must be followed by "=". */
  function TripleEffect(t: seq<string>, i: nat): (e: Effect)
    requires i + 1 < |t| && TriplesInBounds(t, i)
    ensures e.Assign? ==> Fits(e.v, Map[e.idx].kind)
    ensures e.NoEffect? <==> MapIndexOf(t[i]) < 0
    ensures e.Assign? ==> e.idx == MapIndexOf(t[i])
  {
    var idx := MapIndexOf(t[i]);
    if idx < 0 then NoEffect
    else if !StrCaseEq("=", t[i + 1]) then Reject
    else
      assert i + 2 < |t|;
      match Convert(Map[idx].kind, t[i + 2])
      case None => Reject
      case Some(v) => Assign(idx, v)
  }

  /** Stage two from token `i`: the triples are taken in order while two tokens remain;
      a skipped triple changes nothing, a failing one stops with -1, a storing one sets its
      field. Fields set before a failure keep their new values. */
  function Interpret(t: seq<string>, i: nat, slots: seq<Value>): (r: Parsed)
    requires TriplesInBounds(t, i) && |slots| == |Map|
    ensures |r.slots| == |Map|
    ensures r.status == 0 || r.status == -1
    decreases |t| - i
  {
    if i + 1 >= |t| then Parsed(0, slots)
    else
      match TripleEffect(t, i)
      case NoEffect => Interpret(t, i + 3, slots)
      case Reject => Parsed(-1, slots)
      case Assign(idx, v) => Interpret(t, i + 3, slots[idx := v])
  }

  /** Stage two stores an int into int fields and a text into text fields. */
  lemma {:induction false} InterpretKeepsTyped(t: seq<string>, i: nat, slots: seq<Value>)
    requires TriplesInBounds(t, i) && WellTyped(slots)
    ensures WellTyped(Interpret(t, i, slots).slots)
    decreases |t| - i
  {
    if i + 1 < |t| {
      match TripleEffect(t, i)
      case NoEffect =>
        InterpretKeepsTyped(t, i + 3, slots);
      case Reject =>
      case Assign(idx, v) =>
        StoreKeepsTyped(slots, idx, v);
        InterpretKeepsTyped(t, i + 3, slots[idx := v]);
    }
  }

  /** One turn of the loop of stage two, up to the store: looks the name up, checks the
      "=" of a known name and converts its value. */
  method ReadTriple(buf: array<char>, items: seq<nat>, ghost tokens: seq<string>, i: nat)
    returns (e: Effect)
    requires |items| == |tokens| && i + 1 < |items| && TriplesInBounds(tokens, i)
    requires forall k :: 0 <= k < |items| ==> items[k] <= buf.Length && CStringAt(buf[..], items[k]) == tokens[k]
    ensures e == TripleEffect(tokens, i)
  {
    var name := CStringAt(buf[..], items[i]);
    var mapIdx := ParameterNameToMapIndex(name);
    if mapIdx < 0 {
      return NoEffect;
    }
    var eq := CStringAt(buf[..], items[i + 1]);
    if !StrCaseEq("=", eq) {
      return Reject;
    }
    assert i + 2 < |items|;
    var value := CStringAt(buf[..], items[i + 2]);
    // sscanf("%d") into an int field, strncpy of STRING_SIZE characters into a text field
    var v := Convert(Map[mapIdx].kind, value);
    if v.None? {
      return Reject;
    }
    return Assign(mapIdx, v.value);
  }

  /** Stage two of `ParseContent`: reads the items three at a time from the scanned buffer
      and stores the values. `tokens` names what the items spell. */
  method StoreItems(buf: array<char>, items: seq<nat>, ghost tokens: seq<string>, cfg: ConfigInput)
    returns (status: int)
    requires |items| == |tokens| && TriplesInBounds(tokens, 0)
    requires forall k :: 0 <= k < |items| ==> items[k] <= buf.Length && CStringAt(buf[..], items[k]) == tokens[k]
    requires cfg.Valid()
    modifies cfg
    ensures cfg.Valid()
    ensures var r := Interpret(tokens, 0, old(cfg.slots)); status == r.status && cfg.slots == r.slots
  {
    ghost var slots0 := cfg.slots;
    var item := |items| - 1;
    var i := 0;
    while i < item
      invariant TriplesInBounds(tokens, i) && cfg.Valid()
      invariant Interpret(tokens, i, cfg.slots) == Interpret(tokens, 0, slots0)
      decreases item - i
    {
      var e := ReadTriple(buf, items, tokens, i);
      match e {
        case NoEffect =>
        case Reject =>
          return -1;
        case Assign(idx, v) =>
          StoreKeepsTyped(cfg.slots, idx, v);
          cfg.slots := cfg.slots[idx := v];
      }
      i := i + 3;
    }
    return 0;
  }

  /** `ParseContent(buf, bufsize)`: scans `buf[..bufsize]` in place, then stores each
      `name = value` triple into the record. The result and the new record are those of
      `Interpret` on the tokens of the content. */
  method ParseContent(buf: array<char>, bufsize: nat, cfg: ConfigInput) returns (status: int)
    requires bufsize < buf.Length && buf[bufsize] == NUL
    requires Parsable(buf[..bufsize])
    requires cfg.Valid()
    modifies buf, cfg
    ensures cfg.Valid()
    ensures var r := Interpret(Lex(old(buf[..bufsize])), 0, old(cfg.slots));
            status == r.status && cfg.slots == r.slots
    ensures buf[..] == Scan(ScanStart(old(buf[..])), bufsize).buf
  {
    ghost var tokens := Lex(buf[..bufsize]);
    assert buf[..][..bufsize] == buf[..bufsize];
    ItemsSpellTokens(buf[..], bufsize);
    var items := SplitItems(buf, bufsize);
    status := StoreItems(buf, items, tokens, cfg);
  }
}
