/**
 normalize_pdf_text in one pass: what stands between one visible character and the
 next is decided by the newlines between them.
 */
module PdfRender {
  import opened PyText
  import opened PdfText

  /** Where a reader of the text stands: whether it has met a visible character, and
      whether it is in whitespace, with how many newlines. */
  datatype State = State(begun: bool, inGap: bool, breaks: nat)

  const START := State(false, false, 0)

  /** What the whitespace before the next visible character becomes. */
  function Gap(s: State): Text {
    if !s.begun || !s.inGap then []
    else if s.breaks == 0 then [0x20]
    else if s.breaks == 1 then [0x0A]
    else [0x0A, 0x0A]
  }

  function Breaking(s: State, n: nat): State {
    State(s.begun, true, (if s.inGap then s.breaks else 0) + n)
  }

  /** One character: a newline, other whitespace, or a visible one. */
  function Next(c: CodePoint, s: State): State {
    if c == 0x0A then Breaking(s, 1) else if IsSpace(c) then Breaking(s, 0) else State(true, false, 0)
  }

  function Shown(c: CodePoint, s: State): Text {
    if IsSpace(c) then [] else Gap(s) + [c]
  }

  function Render(t: Text, s: State): Text {
    if t == [] then [] else Shown(t[0], s) + Render(t[1..], Next(t[0], s))
  }

  function Final(t: Text, s: State): State {
    if t == [] then s else Final(t[1..], Next(t[0], s))
  }

  /** The raw text in one pass: CR, LF and CR LF are one line break each, a form feed is
      two, and control characters are not there. */
  function RenderRaw(t: Text, s: State): Text {
    if t == [] then []
    else if t[0] == 0x0D && |t| > 1 && t[1] == 0x0A then RenderRaw(t[2..], Breaking(s, 1))
    else if t[0] == 0x0D then RenderRaw(t[1..], Breaking(s, 1))
    else if t[0] == 0x0C then RenderRaw(t[1..], Breaking(s, 2))
    else if IsControl(t[0]) then RenderRaw(t[1..], s)
    else Shown(t[0], s) + RenderRaw(t[1..], Next(t[0], s))
  }

  // ------------------------------------------------------------------ first stages

  lemma {:induction false} RawIsPrepared(t: Text, s: State)
    ensures RenderRaw(t, s) == Render(DropControls(BreakLines(JoinCrLf(t))), s)
  {
    hide Shown;
    if t != [] {
      if t[0] == CR && |t| > 1 && t[1] == LF {
        RawIsPrepared(t[2..], Breaking(s, 1));
        PreparedStep(LF, JoinCrLf(t[2..]), s);
        NewlineShowsNothing(s);
      } else {
        PreparedStep(t[0], JoinCrLf(t[1..]), s);
        if t[0] == CR { RawIsPrepared(t[1..], Breaking(s, 1)); }
        else if t[0] == FF { RawIsPrepared(t[1..], Breaking(s, 2)); }
        else if IsControl(t[0]) { RawIsPrepared(t[1..], s); }
        else { RawIsPrepared(t[1..], Next(t[0], s)); }
      }
    }
  }

  lemma NewlineShowsNothing(s: State)
    ensures forall u: Text :: Shown(LF, s) + u == u
    ensures Next(LF, s) == Breaking(s, 1) && !IsControl(LF)
  {
  }

  lemma {:induction false} PreparedStep(c: CodePoint, rest: Text, s: State)
    ensures var u := DropControls(BreakLines(rest));
      Render(DropControls(BreakLines([c] + rest)), s) ==
        if c == CR then Render(u, Breaking(s, 1))
        else if c == FF then Render(u, Breaking(s, 2))
        else if IsControl(c) then Render(u, s)
        else Shown(c, s) + Render(u, Next(c, s))
  {
    var u := DropControls(BreakLines(rest));
    assert ([c] + rest)[1..] == rest;
    if c == FF {
      assert [LF, LF] + BreakLines(rest) == [LF] + ([LF] + BreakLines(rest));
      DropOne(LF, [LF] + BreakLines(rest));
      DropOne(LF, BreakLines(rest));
      RenderOne(LF, [LF] + u, s);
      RenderOne(LF, u, Next(LF, s));
    } else {
      var c' := if c == CR then LF else c;
      assert BreakLines([c] + rest) == [c'] + BreakLines(rest);
      DropOne(c', BreakLines(rest));
      assert [] + u == u;
      RenderOne(c', u, s);
    }
  }

  lemma {:induction false} DropOne(c: CodePoint, rest: Text)
    ensures DropControls([c] + rest) == (if IsControl(c) then [] else [c]) + DropControls(rest)
  {
    assert ([c] + rest)[1..] == rest;
  }

  lemma {:induction false} RenderOne(c: CodePoint, rest: Text, s: State)
    ensures Render([c] + rest, s) == Shown(c, s) + Render(rest, Next(c, s))
    ensures Final([c] + rest, s) == Final(rest, Next(c, s))
  {
    assert ([c] + rest)[1..] == rest;
  }

  // ------------------------------------------------------------------ later stages

  /** The two states lead to the same text. */
  predicate Alike(s: State, u: State) {
    s.begun == u.begun && (s.begun ==> s.inGap == u.inGap && Gap(s) == Gap(u))
  }

  lemma AlikeNext(c: CodePoint, s: State, u: State)
    requires Alike(s, u)
    ensures Alike(Next(c, s), Next(c, u)) && Shown(c, s) == Shown(c, u)
  {
  }

  lemma {:induction false} RenderAlike(t: Text, s: State, u: State)
    requires Alike(s, u)
    ensures Render(t, s) == Render(t, u) && Alike(Final(t, s), Final(t, u))
  {
    if t != [] {
      AlikeNext(t[0], s, u);
      hide Alike, Next, Shown;
      RenderAlike(t[1..], Next(t[0], s), Next(t[0], u));
    }
  }

  lemma {:induction false} RenderJoin(x: Text, y: Text, s: State)
    ensures Render(x + y, s) == Render(x, s) + Render(y, Final(x, s))
    ensures Final(x + y, s) == Final(y, Final(x, s))
  {
    hide Next, Shown;
    if x == [] {
      assert x + y == y;
    } else {
      assert (x + y)[1..] == x[1..] + y;
      RenderJoin(x[1..], y, Next(x[0], s));
    }
  }

  lemma {:induction false} SqueezeRenders(t: Text, s: State)
    ensures Render(Squeeze(t), s) == Render(t, s)
  {
    if t != [] {
      if IsHorizontal(t[0]) && |t| > 1 && IsHorizontal(t[1]) {
        SqueezeRenders(t[1..], s);
        assert t[1..][1..] == t[2..];
        RenderTwoBlanks(t, s);
      } else {
        var c := if IsHorizontal(t[0]) then SP else t[0];
        SqueezeRenders(t[1..], Next(t[0], s));
        RenderOne(c, Squeeze(t[1..]), s);
      }
    }
  }

  lemma {:induction false} RenderTwoBlanks(t: Text, s: State)
    requires |t| > 1 && IsHorizontal(t[0]) && IsHorizontal(t[1])
    ensures Render(t, s) == Render(t[1..], s)
  {
    assert Next(t[1], Next(t[0], s)) == Next(t[1], s);
    assert t[1..][0] == t[1];
  }

  lemma {:induction false} CapRenders(t: Text, s: State)
    ensures Render(CapBlankLines(t), s) == Render(t, s)
  {
    if t != [] {
      if |t| > 2 && t[0] == LF && t[1] == LF && t[2] == LF {
        CapRenders(t[1..], s);
        var rest := t[3..];
        assert t == [LF] + ([LF] + ([LF] + rest)) && t[1..] == [LF] + ([LF] + rest);
        RenderOne(LF, [LF] + ([LF] + rest), s);
        RenderOne(LF, [LF] + rest, Next(LF, s));
        RenderOne(LF, rest, Next(LF, Next(LF, s)));
        RenderOne(LF, [LF] + rest, s);
        RenderAlike(rest, Next(LF, Next(LF, Next(LF, s))), Next(LF, Next(LF, s)));
      } else {
        CapRenders(t[1..], Next(t[0], s));
        RenderOne(t[0], CapBlankLines(t[1..]), s);
      }
    }
  }

  ghost predicate Blank(t: Text) {
    forall i :: 0 <= i < |t| ==> IsSpace(t[i])
  }

  /** Whitespace shows nothing, and counts only by its newlines. */
  lemma {:induction false} BlankRenders(t: Text, s: State)
    requires Blank(t)
    ensures Render(t, s) == [] && Final(t, s).begun == s.begun
    ensures t != [] ==> Final(t, s).inGap
    ensures LF !in t && t != [] ==> Final(t, s) == Breaking(s, 0)
    ensures t == [] ==> Final(t, s) == s
  {
    if t != [] {
      assert forall i :: 0 <= i < |t[1..]| ==> t[1..][i] == t[i + 1];
      BlankRenders(t[1..], Next(t[0], s));
    }
  }

  lemma {:induction false} StripRenders(t: Text)
    ensures Render(Strip(t), START) == Render(t, START)
  {
    var from, to := StripCuts(t);
    var (x, y, z) := (t[..from], t[from..to], t[to..]);
    assert t == x + y + z;
    assert Blank(x) && Blank(z);
    hide Render, Final, Strip, Blank, Next, Shown;
    BlankRenders(x, START);
    RenderJoin(x + y, z, START);
    RenderJoin(x, y, START);
    BlankRenders(z, Final(x + y, START));
    RenderAlike(y, Final(x, START), START);
  }

  /** A line may begin here without any effect of blanks at its start. */
  predicate AtLineStart(s: State) {
    !s.begun || (s.inGap && s.breaks >= 1)
  }

  lemma {:induction false} StripLineRenders(l: Text, s: State)
    requires AtLineStart(s) && LF !in l
    ensures Render(Strip(l), s) == Render(l, s)
    ensures Alike(Next(LF, Final(Strip(l), s)), Next(LF, Final(l, s)))
  {
    var from, to := StripCuts(l);
    var (x, y, z) := (l[..from], l[from..to], l[to..]);
    assert l == x + y + z && LF !in x && LF !in z;
    BlankRenders(x, s);
    RenderJoin(x + y, z, s);
    RenderJoin(x, y, s);
    var middle := Final(x + y, s);
    BlankRenders(z, middle);
    assert Alike(Final(x, s), s);
    RenderAlike(y, Final(x, s), s);
    AlikeNext(LF, Final(y, Final(x, s)), Final(y, s));
    AfterBlank(middle, Final(l, s));
  }

  lemma AfterBlank(middle: State, last: State)
    requires last == middle || last == Breaking(middle, 0)
    ensures Next(LF, last) == Next(LF, middle)
  {
  }

  lemma {:induction false} LinesJoin(t: Text)
    ensures Unlines(Lines(t)) == t && forall i :: 0 <= i < |Lines(t)| ==> LF !in Lines(t)[i]
  {
    if t != [] {
      LinesJoin(t[1..]);
      var (ls, rest) := (Lines(t), Lines(t[1..]));
      if t[0] == LF {
        assert ls[1..] == rest && ls[0] == [];
        assert forall i :: 1 <= i < |ls| ==> ls[i] == rest[i - 1];
      } else {
        assert ls[1..] == rest[1..] && forall i :: 1 <= i < |ls| ==> ls[i] == rest[i];
        assert rest[0] == rest[0] && ls[0] == [t[0]] + rest[0];
        if |rest| > 1 { assert [t[0]] + rest[0] + [LF] + Unlines(rest[1..]) == [t[0]] + Unlines(rest); }
      }
      assert t == [t[0]] + t[1..];
    }
  }

  lemma {:induction false} StripEachRenders(ls: seq<Text>, s: State, u: State)
    requires Alike(s, u) && AtLineStart(s) && AtLineStart(u)
    requires ls != [] && forall i :: 0 <= i < |ls| ==> LF !in ls[i]
    ensures Render(Unlines(StripEach(ls)), s) == Render(Unlines(ls), u)
  {
    var (l, rs) := (ls[0], StripEach(ls));
    StripLineRenders(l, s);
    RenderAlike(l, s, u);
    assert rs[0] == Strip(l);
    if |ls| > 1 {
      assert rs[1..] == StripEach(ls[1..]);
      AlikeNext(LF, Final(l, s), Final(l, u));
      var (s', u') := (Next(LF, Final(Strip(l), s)), Next(LF, Final(l, u)));
      assert Alike(s', u') && AtLineStart(s') && AtLineStart(u');
      hide Alike, AtLineStart, Next, Strip;
      StripEachRenders(ls[1..], s', u');
      LineRenders(Strip(l), Unlines(rs[1..]), s);
      LineRenders(l, Unlines(ls[1..]), u);
    }
  }

  lemma {:induction false} LineRenders(l: Text, rest: Text, s: State)
    ensures Render(l + [LF] + rest, s) == Render(l, s) + Render(rest, Next(LF, Final(l, s)))
  {
    assert l + [LF] + rest == l + ([LF] + rest);
    RenderJoin(l, [LF] + rest, s);
    RenderOne(LF, rest, Final(l, s));
    assert Shown(LF, Final(l, s)) == [];
  }

  // ---------------------------------------------------------------- normal results

  /** A normal text is its own rendering. */
  lemma {:induction false} NormalRenders(t: Text, n: nat)
    requires Normal(t) && n <= |t|
    ensures n == 0 ==> Final(t[..n], START) == START
    ensures n > 0 && !IsSpace(t[n - 1]) ==>
      Final(t[..n], START) == State(true, false, 0) && Render(t[..n], START) == t[..n]
    ensures n > 0 && t[n - 1] == SP ==>
      n > 1 && Final(t[..n], START) == State(true, true, 0) && Render(t[..n], START) == t[..n - 1]
    ensures n > 0 && t[n - 1] == LF && n > 1 && t[n - 2] != LF ==>
      Final(t[..n], START) == State(true, true, 1) && Render(t[..n], START) == t[..n - 1]
    ensures n > 1 && t[n - 1] == LF && t[n - 2] == LF ==>
      n > 2 && Final(t[..n], START) == State(true, true, 2) && Render(t[..n], START) == t[..n - 2]
  {
    if n > 0 {
      NormalRenders(t, n - 1);
      var (front, c) := (t[..n - 1], t[n - 1]);
      assert t[..n] == front + [c];
      RenderJoin(front, [c], START);
      RenderOne(c, [], Final(front, START));
      assert [c] + [] == [c];
      if n > 1 { assert Beside(t[n - 2], c); }
      if n > 2 { assert !Triple(t, n - 3); }
    }
  }

  /** Normalizing is that one pass. */
  lemma {:induction false} NormalizeRenders(t: Text)
    ensures Normalize(t) == RenderRaw(t, START)
  {
    var u := DropControls(BreakLines(JoinCrLf(t)));
    var v := Squeeze(u);
    RawIsPrepared(t, START);
    SqueezeRenders(u, START);
    LinesJoin(v);
    hide Render, Final, RenderRaw, Squeeze, CapBlankLines, Strip, Lines, Unlines, Normal, JoinCrLf, BreakLines,
         DropControls;
    StripEachRenders(Lines(v), START, START);
    CapRenders(StripLines(v), START);
    StripRenders(CapBlankLines(StripLines(v)));
    NormalizedIsNormal(t);
    WholeRenders(Normalize(t));
  }

  lemma {:induction false} WholeRenders(r: Text)
    requires Normal(r)
    ensures Render(r, START) == r
  {
    NormalRenders(r, |r|);
    assert r[..|r|] == r;
  }
}
