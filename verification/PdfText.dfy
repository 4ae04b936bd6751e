/**
 normalize_pdf_text of companion/pdf_extract.py: what its result looks like, that
 exactly such texts are left alone, and that no visible character is lost.
 */
module PdfText {
  import opened PyText

  const LF: CodePoint := 0x0A
  const FF: CodePoint := 0x0C
  const CR: CodePoint := 0x0D
  const SP: CodePoint := 0x20

  /** str.isspace, and the class \s of re. */
  predicate IsSpace(c: CodePoint) {
    || 0x09 <= c <= 0x0D || 0x1C <= c <= 0x20 || c == 0x85 || c == 0xA0 || c == 0x1680
    || 0x2000 <= c <= 0x200A || c == 0x2028 || c == 0x2029 || c == 0x202F || c == 0x205F || c == 0x3000
  }

  predicate IsControl(c: CodePoint) {
    c <= 0x08 || c == 0x0B || 0x0E <= c <= 0x1F || c == 0x7F
  }

  predicate IsHorizontal(c: CodePoint) { IsSpace(c) && c != LF }

  // -------------------------------------------------------------------- stages

  /** replace("\r\n", "\n"). */
  function JoinCrLf(t: Text): Text {
    if t == [] then []
    else if t[0] == CR && |t| > 1 && t[1] == LF then [LF] + JoinCrLf(t[2..])
    else [t[0]] + JoinCrLf(t[1..])
  }

  /** replace("\r", "\n").replace("\x0c", "\n\n"). */
  function BreakLines(t: Text): Text {
    if t == [] then []
    else (if t[0] == CR then [LF] else if t[0] == FF then [LF, LF] else [t[0]]) + BreakLines(t[1..])
  }

  function DropControls(t: Text): Text {
    if t == [] then [] else (if IsControl(t[0]) then [] else [t[0]]) + DropControls(t[1..])
  }

  /** Every run of horizontal whitespace becomes one space. */
  function Squeeze(t: Text): Text {
    if t == [] then []
    else if IsHorizontal(t[0]) && |t| > 1 && IsHorizontal(t[1]) then Squeeze(t[1..])
    else [if IsHorizontal(t[0]) then SP else t[0]] + Squeeze(t[1..])
  }

  function StripLeft(t: Text): (r: Text)
    ensures |r| <= |t|
  {
    if t != [] && IsSpace(t[0]) then StripLeft(t[1..]) else t
  }

  function StripRight(t: Text): (r: Text)
    ensures |r| <= |t|
  {
    if t != [] && IsSpace(t[|t| - 1]) then StripRight(t[..|t| - 1]) else t
  }

  function Strip(t: Text): Text { StripRight(StripLeft(t)) }

  /** split("\n"). */
  function Lines(t: Text): (ls: seq<Text>)
    ensures ls != []
  {
    if t == [] then [[]]
    else
      var rest := Lines(t[1..]);
      if t[0] == LF then [[]] + rest else [[t[0]] + rest[0]] + rest[1..]
  }

  /** "\n".join. */
  function Unlines(ls: seq<Text>): Text {
    if ls == [] then [] else if |ls| == 1 then ls[0] else ls[0] + [LF] + Unlines(ls[1..])
  }

  function StripEach(ls: seq<Text>): (r: seq<Text>)
    ensures |r| == |ls| && forall i :: 0 <= i < |ls| ==> r[i] == Strip(ls[i])
  {
    seq(|ls|, i requires 0 <= i < |ls| => Strip(ls[i]))
  }

  function StripLines(t: Text): Text { Unlines(StripEach(Lines(t))) }

  /** Runs of three and more newlines become two. */
  function CapBlankLines(t: Text): Text {
    if t == [] then []
    else if |t| > 2 && t[0] == LF && t[1] == LF && t[2] == LF then CapBlankLines(t[1..])
    else [t[0]] + CapBlankLines(t[1..])
  }

  function Normalize(t: Text): Text {
    Strip(CapBlankLines(StripLines(Squeeze(DropControls(BreakLines(JoinCrLf(t)))))))
  }

  // --------------------------------------------------------------- normal texts

  /** Only spaces and newlines as whitespace, and no control characters. */
  ghost predicate Plain(t: Text) {
    forall i :: 0 <= i < |t| ==> !IsControl(t[i]) && (IsSpace(t[i]) ==> t[i] == SP || t[i] == LF)
  }

  /** The two may stand next to each other: whitespace only as newline by newline. */
  predicate Beside(a: CodePoint, b: CodePoint) {
    IsSpace(a) && IsSpace(b) ==> a == LF && b == LF
  }

  ghost predicate Spaced(t: Text) {
    forall i :: 0 <= i < |t| - 1 ==> Beside(t[i], t[i + 1])
  }

  predicate Triple(t: Text, i: int)
    requires 0 <= i < |t| - 2
  {
    t[i] == LF && t[i + 1] == LF && t[i + 2] == LF
  }

  ghost predicate FewBlankLines(t: Text) {
    forall i :: 0 <= i < |t| - 2 ==> !Triple(t, i)
  }

  predicate Tight(t: Text) {
    t == [] || (!IsSpace(t[0]) && !IsSpace(t[|t| - 1]))
  }

  /** No control characters; no whitespace but single spaces between visible
      characters and at most two newlines in a row; none at the ends. */
  ghost predicate Normal(t: Text) {
    Plain(t) && Spaced(t) && FewBlankLines(t) && Tight(t)
  }

  // ------------------------------------------------------- the result is normal

  /** What the first two stages leave: neither controls nor form feeds. */
  ghost predicate Uncontrolled(t: Text) {
    forall i :: 0 <= i < |t| ==> !IsControl(t[i])
  }

  lemma {:induction false} DropControlsClean(t: Text)
    ensures Uncontrolled(DropControls(t))
  {
    if t != [] { DropControlsClean(t[1..]); }
  }

  /** Horizontal whitespace is single spaces after Squeeze. */
  ghost predicate Squeezed(t: Text) {
    && Plain(t)
    && forall i :: 0 <= i < |t| - 1 ==> !(t[i] == SP && t[i + 1] == SP)
  }

  lemma {:induction false} SqueezeSqueezes(t: Text)
    requires Uncontrolled(t)
    ensures Squeezed(Squeeze(t))
    ensures t != [] ==> Squeeze(t) != [] && (Squeeze(t)[0] == SP <==> IsHorizontal(t[0]))
  {
    if t != [] {
      SqueezeSqueezes(t[1..]);
      assert forall i :: 0 <= i < |t[1..]| ==> t[1..][i] == t[i + 1];
    }
  }

  /** A line between newlines. */
  ghost predicate TidyLine(l: Text) {
    && (forall i :: 0 <= i < |l| ==> !IsControl(l[i]) && (IsSpace(l[i]) ==> l[i] == SP))
    && (forall i :: 0 <= i < |l| - 1 ==> !(l[i] == SP && l[i + 1] == SP))
  }

  lemma {:induction false} LinesTidy(t: Text)
    requires Squeezed(t)
    ensures forall i :: 0 <= i < |Lines(t)| ==> TidyLine(Lines(t)[i])
    ensures t != [] && t[0] != LF ==> Lines(t)[0] != [] && Lines(t)[0][0] == t[0]
    ensures t == [] || t[0] == LF ==> Lines(t)[0] == []
  {
    if t != [] {
      assert forall i :: 0 <= i < |t[1..]| ==> t[1..][i] == t[i + 1];
      LinesTidy(t[1..]);
      var rest := Lines(t[1..]);
      if t[0] != LF {
        var l := [t[0]] + rest[0];
        assert TidyLine(rest[0]);
        assert forall i :: 0 < i < |l| ==> l[i] == rest[0][i - 1];
        assert TidyLine(l);
        assert forall i :: 1 <= i < |Lines(t)| ==> Lines(t)[i] == rest[i];
      } else {
        assert forall i :: 1 <= i < |Lines(t)| ==> Lines(t)[i] == rest[i - 1];
      }
    }
  }

  /** Strip cuts off whitespace only, and all of it. */
  lemma {:induction false} StripLeftCuts(t: Text)
    ensures StripLeft(t) == t[|t| - |StripLeft(t)|..]
    ensures forall i :: 0 <= i < |t| - |StripLeft(t)| ==> IsSpace(t[i])
    ensures StripLeft(t) != [] ==> !IsSpace(StripLeft(t)[0])
  {
    if t != [] && IsSpace(t[0]) {
      StripLeftCuts(t[1..]);
      assert forall i :: 1 <= i < |t| ==> t[i] == t[1..][i - 1];
    }
  }

  lemma {:induction false} StripRightCuts(t: Text)
    ensures StripRight(t) == t[..|StripRight(t)|]
    ensures forall i :: |StripRight(t)| <= i < |t| ==> IsSpace(t[i])
    ensures StripRight(t) != [] ==> !IsSpace(StripRight(t)[|StripRight(t)| - 1])
  {
    if t != [] && IsSpace(t[|t| - 1]) { StripRightCuts(t[..|t| - 1]); }
  }

  /** Strip gives a tight middle part. */
  lemma StripCuts(t: Text) returns (from: nat, to: nat)
    ensures from <= to <= |t| && Strip(t) == t[from..to]
    ensures forall i :: 0 <= i < from || to <= i < |t| ==> IsSpace(t[i])
    ensures Tight(Strip(t))
  {
    StripLeftCuts(t);
    var left := StripLeft(t);
    StripRightCuts(left);
    from, to := |t| - |left|, |t| - |left| + |StripRight(left)|;
    assert forall i :: from <= i < |t| ==> t[i] == left[i - from];
    if Strip(t) != [] { assert Strip(t)[0] == left[0]; }
  }

  lemma StripLineTidy(l: Text)
    requires TidyLine(l)
    ensures TidyLine(Strip(l)) && Tight(Strip(l)) && Plain(Strip(l)) && Spaced(Strip(l))
  {
    var from, to := StripCuts(l);
    assert forall i :: 0 <= i < to - from ==> Strip(l)[i] == l[from + i];
  }

  /** Text made of tight lines: whitespace never touches whitespace but newlines. */
  lemma {:induction false} UnlinesSpaced(ls: seq<Text>)
    requires forall i :: 0 <= i < |ls| ==> Plain(ls[i]) && Spaced(ls[i]) && Tight(ls[i])
    ensures Plain(Unlines(ls)) && Spaced(Unlines(ls))
    ensures Unlines(ls) != [] ==> Unlines(ls)[0] != SP && Unlines(ls)[|Unlines(ls)| - 1] != SP
  {
    if |ls| > 1 {
      UnlinesSpaced(ls[1..]);
      var (l, tail, t) := (ls[0], Unlines(ls[1..]), Unlines(ls));
      assert t == l + [LF] + tail;
      assert forall i :: 0 <= i < |l| ==> t[i] == l[i];
      assert forall i :: |l| < i < |t| ==> t[i] == tail[i - |l| - 1];
      forall i | 0 <= i < |t| - 1 ensures Beside(t[i], t[i + 1]) {
        if i < |l| - 1 { assert Beside(l[i], l[i + 1]); }
        if i > |l| { assert Beside(tail[i - |l| - 1], tail[i - |l|]); }
      }
    }
  }

  /** Capping keeps the neighbourhood rule and leaves no triple. */
  lemma {:induction false} CapSpaced(t: Text)
    requires Plain(t) && Spaced(t)
    ensures Plain(CapBlankLines(t)) && Spaced(CapBlankLines(t)) && FewBlankLines(CapBlankLines(t))
    ensures t != [] ==> CapBlankLines(t) != [] && CapBlankLines(t)[0] == t[0]
    ensures |t| > 1 ==> |CapBlankLines(t)| > 1 && CapBlankLines(t)[1] == t[1]
    ensures t != [] ==> CapBlankLines(t)[|CapBlankLines(t)| - 1] == t[|t| - 1]
  {
    if t != [] {
      var rest := t[1..];
      assert forall i :: 0 <= i < |rest| ==> rest[i] == t[i + 1];
      assert forall i :: 0 <= i < |rest| - 1 ==> Beside(rest[i], rest[i + 1]) by {
        forall i | 0 <= i < |rest| - 1 ensures Beside(rest[i], rest[i + 1]) { assert Beside(t[i + 1], t[i + 2]); }
      }
      CapSpaced(rest);
      var (r, tail) := (CapBlankLines(t), CapBlankLines(rest));
      if !(|t| > 2 && t[0] == LF && t[1] == LF && t[2] == LF) {
        assert r == [t[0]] + tail;
        if |t| > 1 { assert Beside(t[0], t[1]); }
        forall i | 0 <= i < |r| - 1 ensures Beside(r[i], r[i + 1]) {
          if i > 0 { assert Beside(tail[i - 1], tail[i]); }
        }
        forall i | 0 <= i < |r| - 2 ensures !Triple(r, i) {
          if i > 0 { assert !Triple(tail, i - 1); }
        }
      }
    }
  }

  /** The result is always normal. */
  lemma NormalizedIsNormal(t: Text)
    ensures Normal(Normalize(t))
  {
    var clean := DropControls(BreakLines(JoinCrLf(t)));
    DropControlsClean(BreakLines(JoinCrLf(t)));
    SqueezeSqueezes(clean);
    var squeezed := Squeeze(clean);
    LinesTidy(squeezed);
    var ls := StripEach(Lines(squeezed));
    forall i | 0 <= i < |ls| ensures Plain(ls[i]) && Spaced(ls[i]) && Tight(ls[i]) {
      StripLineTidy(Lines(squeezed)[i]);
    }
    UnlinesSpaced(ls);
    var capped := CapBlankLines(Unlines(ls));
    CapSpaced(Unlines(ls));
    MiddleNormal(capped);
  }

  lemma MiddleNormal(t: Text)
    requires Plain(t) && Spaced(t) && FewBlankLines(t)
    ensures Normal(Strip(t))
  {
    var from, to := StripCuts(t);
    var r := Strip(t);
    assert forall i :: 0 <= i < |r| ==> r[i] == t[from + i];
    forall i | 0 <= i < |r| - 1 ensures Beside(r[i], r[i + 1]) { assert Beside(t[from + i], t[from + i + 1]); }
    forall i | 0 <= i < |r| - 2 ensures !Triple(r, i) { assert !Triple(t, from + i); }
  }

  // -------------------------------------------------- normal texts are left alone

  lemma {:induction false} NoCrLfToJoin(t: Text)
    requires forall i :: 0 <= i < |t| ==> t[i] != CR
    ensures JoinCrLf(t) == t
  {
    if t != [] { NoCrLfToJoin(t[1..]); }
  }

  lemma {:induction false} NoBreaksToMake(t: Text)
    requires forall i :: 0 <= i < |t| ==> t[i] != CR && t[i] != FF
    ensures BreakLines(t) == t
  {
    if t != [] { NoBreaksToMake(t[1..]); }
  }

  lemma {:induction false} NoControlsToDrop(t: Text)
    requires Uncontrolled(t)
    ensures DropControls(t) == t
  {
    if t != [] { NoControlsToDrop(t[1..]); }
  }

  lemma {:induction false} NothingToSqueeze(t: Text)
    requires Squeezed(t)
    ensures Squeeze(t) == t
  {
    if t != [] {
      assert forall i :: 0 <= i < |t[1..]| ==> t[1..][i] == t[i + 1];
      NothingToSqueeze(t[1..]);
    }
  }

  lemma {:induction false} NothingToCap(t: Text)
    requires FewBlankLines(t)
    ensures CapBlankLines(t) == t
  {
    if t != [] {
      var rest := t[1..];
      forall i | 0 <= i < |rest| - 2 ensures !Triple(rest, i) { assert !Triple(t, i + 1); }
      NothingToCap(rest);
      if |t| > 2 { assert !Triple(t, 0); }
    }
  }

  lemma NothingToStrip(t: Text)
    requires Tight(t)
    ensures Strip(t) == t
  {
  }

  lemma {:induction false} LinesUndone(t: Text)
    ensures Unlines(Lines(t)) == t
  {
    if t != [] {
      LinesUndone(t[1..]);
      var rest := Lines(t[1..]);
      if t[0] == LF {
        assert ([[]] + rest)[1..] == rest;
      } else if |rest| > 1 {
        assert ([[t[0]] + rest[0]] + rest[1..])[1..] == rest[1..];
      }
    }
  }

  lemma SpacedTail(t: Text)
    requires Plain(t) && Spaced(t) && t != []
    ensures Plain(t[1..]) && Spaced(t[1..])
    ensures |t| > 1 && t[1] == LF && IsSpace(t[0]) ==> t[0] == LF
    ensures |t| > 1 && IsSpace(t[0]) && t[0] != LF ==> !IsSpace(t[1])
    ensures |t| > 1 && t[0] == LF ==> t[1] != SP
    ensures IsSpace(t[0]) ==> t[0] == SP || t[0] == LF
    ensures IsSpace(SP) && IsSpace(LF)
  {
    assert forall i :: 0 <= i < |t[1..]| ==> t[1..][i] == t[i + 1];
    forall i | 0 <= i < |t[1..]| - 1 ensures Beside(t[1..][i], t[1..][i + 1]) { assert Beside(t[i + 1], t[i + 2]); }
    if |t| > 1 { assert Beside(t[0], t[1]); }
  }

  /** The lines of a text without whitespace beside its newlines are tight. */
  lemma {:induction false} LinesTight(t: Text)
    requires Plain(t) && Spaced(t) && (t != [] ==> t[|t| - 1] != SP)
    ensures forall i :: 1 <= i < |Lines(t)| ==> Tight(Lines(t)[i])
    ensures Lines(t)[0] == [] || (!IsSpace(Lines(t)[0][|Lines(t)[0]| - 1]) && Lines(t)[0][0] == t[0])
    ensures t != [] && t[0] == LF ==> Lines(t)[0] == []
    ensures t != [] && Lines(t)[0] == [] ==> t[0] == LF
  {
    if t != [] {
      var rest := t[1..];
      SpacedTail(t);
      LinesTight(rest);
      hide Plain, Spaced, IsSpace, IsControl;
      var ls := Lines(rest);
      if t[0] == LF {
        assert forall i :: 1 <= i < |Lines(t)| ==> Lines(t)[i] == ls[i - 1];
      } else {
        assert forall i :: 1 <= i < |Lines(t)| ==> Lines(t)[i] == ls[i];
      }
    }
  }

  lemma LinesAlreadyStripped(t: Text)
    requires Normal(t)
    ensures StripLines(t) == t
  {
    LinesTight(t);
    var ls := Lines(t);
    forall i | 0 <= i < |ls| ensures Strip(ls[i]) == ls[i] { NothingToStrip(ls[i]); }
    assert StripEach(ls) == ls;
    LinesUndone(t);
  }

  lemma NormalUnchanged(t: Text)
    requires Normal(t)
    ensures Normalize(t) == t
  {
    NoCrLfToJoin(t);
    NoBreaksToMake(t);
    NoControlsToDrop(t);
    forall i | 0 <= i < |t| - 1 ensures !(t[i] == SP && t[i + 1] == SP) { assert Beside(t[i], t[i + 1]); }
    NothingToSqueeze(t);
    LinesAlreadyStripped(t);
    NothingToCap(t);
    NothingToStrip(t);
  }

  /** Exactly the normal texts are left as they are; so normalizing again changes
      nothing. */
  lemma NormalizeIdempotent(t: Text)
    ensures Normalize(t) == t <==> Normal(t)
    ensures Normalize(Normalize(t)) == Normalize(t)
  {
    NormalizedIsNormal(t);
    if Normal(t) { NormalUnchanged(t); }
    NormalUnchanged(Normalize(t));
  }

  // ------------------------------------------------------- nothing visible is lost

  predicate Visible(c: CodePoint) { !IsSpace(c) && !IsControl(c) }

  function Ink(t: Text): Text {
    if t == [] then [] else (if Visible(t[0]) then [t[0]] else []) + Ink(t[1..])
  }

  lemma {:induction false} InkJoin(a: Text, b: Text)
    ensures Ink(a + b) == Ink(a) + Ink(b)
  {
    if a == [] {
      assert a + b == b;
    } else {
      InkJoin(a[1..], b);
      assert (a + b)[1..] == a[1..] + b;
    }
  }

  lemma {:induction false} NoInk(t: Text)
    requires forall i :: 0 <= i < |t| ==> IsSpace(t[i])
    ensures Ink(t) == []
  {
    if t != [] { NoInk(t[1..]); }
  }

  lemma {:induction false} StripKeepsInk(t: Text)
    ensures Ink(Strip(t)) == Ink(t)
  {
    var from, to := StripCuts(t);
    assert t == t[..from] + (t[from..to] + t[to..]);
    InkJoin(t[..from], t[from..to] + t[to..]);
    InkJoin(t[from..to], t[to..]);
    NoInk(t[..from]);
    NoInk(t[to..]);
  }

  lemma {:induction false} JoinCrLfKeepsInk(t: Text)
    ensures Ink(JoinCrLf(t)) == Ink(t)
  {
    if t == [] {
    } else if t[0] == CR && |t| > 1 && t[1] == LF {
      JoinCrLfKeepsInk(t[2..]);
      assert t[1..][1..] == t[2..];
    } else {
      JoinCrLfKeepsInk(t[1..]);
    }
  }

  lemma {:induction false} BreakLinesKeepsInk(t: Text)
    ensures Ink(BreakLines(t)) == Ink(t)
  {
    if t != [] {
      BreakLinesKeepsInk(t[1..]);
      var head := if t[0] == CR then [LF] else if t[0] == FF then [LF, LF] else [t[0]];
      InkJoin(head, BreakLines(t[1..]));
      if t[0] == CR || t[0] == FF { NoInk(head); } else { assert head[1..] == []; }
    }
  }

  lemma {:induction false} DropControlsKeepsInk(t: Text)
    ensures Ink(DropControls(t)) == Ink(t)
  {
    if t != [] {
      DropControlsKeepsInk(t[1..]);
      if IsControl(t[0]) {
        assert DropControls(t) == DropControls(t[1..]);
      } else {
        assert DropControls(t)[1..] == DropControls(t[1..]);
      }
    }
  }

  lemma {:induction false} SqueezeKeepsInk(t: Text)
    ensures Ink(Squeeze(t)) == Ink(t)
  {
    if t != [] {
      SqueezeKeepsInk(t[1..]);
      if !(IsHorizontal(t[0]) && |t| > 1 && IsHorizontal(t[1])) { assert Squeeze(t)[1..] == Squeeze(t[1..]); }
    }
  }

  lemma {:induction false} CapKeepsInk(t: Text)
    ensures Ink(CapBlankLines(t)) == Ink(t)
  {
    if t != [] {
      CapKeepsInk(t[1..]);
      if !(|t| > 2 && t[0] == LF && t[1] == LF && t[2] == LF) { assert CapBlankLines(t)[1..] == CapBlankLines(t[1..]); }
    }
  }

  lemma {:induction false} UnlinesSameInk(a: seq<Text>, b: seq<Text>)
    requires |a| == |b| && forall i :: 0 <= i < |a| ==> Ink(a[i]) == Ink(b[i])
    ensures Ink(Unlines(a)) == Ink(Unlines(b))
  {
    if |a| > 1 {
      UnlinesSameInk(a[1..], b[1..]);
      InkJoin(a[0] + [LF], Unlines(a[1..]));
      InkJoin(b[0] + [LF], Unlines(b[1..]));
      InkJoin(a[0], [LF]);
      InkJoin(b[0], [LF]);
    }
  }

  lemma {:induction false} StripLinesKeepsInk(t: Text)
    ensures Ink(StripLines(t)) == Ink(t)
  {
    var ls := Lines(t);
    forall i | 0 <= i < |ls| ensures Ink(StripEach(ls)[i]) == Ink(ls[i]) { StripKeepsInk(ls[i]); }
    UnlinesSameInk(StripEach(ls), ls);
    LinesUndone(t);
  }

  /** Every character that is neither whitespace nor a control survives, in order. */
  lemma {:induction false} NormalizeKeepsInk(t: Text)
    ensures Ink(Normalize(t)) == Ink(t)
  {
    var joined := JoinCrLf(t);
    var broken := BreakLines(joined);
    var clean := DropControls(broken);
    var squeezed := Squeeze(clean);
    var stripped := StripLines(squeezed);
    JoinCrLfKeepsInk(t);
    BreakLinesKeepsInk(joined);
    DropControlsKeepsInk(broken);
    SqueezeKeepsInk(clean);
    StripLinesKeepsInk(squeezed);
    CapKeepsInk(stripped);
    StripKeepsInk(CapBlankLines(stripped));
  }
}
