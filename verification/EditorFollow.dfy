/**
 An editor whose capabilities may be missing, and the write of streamed content
 that keeps the reader's caret: applyStreamingEditorContent and
 restoreSelectionAfterEdit in src/obsidianEditorFollow.ts.
 */
module EditorFollow {
  import opened Outcomes
  import opened MinimalEdit

  /** Which of the editor's methods exist; cursors: getCursor with posToOffset. */
  datatype Capabilities = Capabilities(
    getValue: bool, replaceRange: bool, offsetToPos: bool, setValue: bool,
    cursors: bool, setSelection: bool, setCursor: bool)

  datatype WriteMode = Unchanged | Ranged | FullReplace | Unsupported

  datatype Selection = Selection(anchor: int, head: int)

  function MapSelection(s: Selection, e: Edit): Selection {
    Selection(MapOffset(s.anchor, e, false), MapOffset(s.head, e, false))
  }

  predicate Follows(now: int, before: int, e: Edit) {
    now == MapOffset(before, e, false) || now == MapOffset(before, e, true)
  }

  /** Both ends stand where the edit takes them. */
  predicate Carried(now: Selection, before: Selection, e: Edit) {
    Follows(now.anchor, before.anchor, e) && Follows(now.head, before.head, e)
  }

  /** A correct replacement, and the smallest one where the strings are well formed. */
  ghost predicate Apt(previous: JsString, next: JsString, e: Edit) {
    && Turns(previous, next, e)
    && (WellFormed(previous) && WellFormed(next) ==> Respects(previous, next, e) && Smallest(previous, next, e))
  }

  class Editor {
    const can: Capabilities
    /** Where this editor itself moves an offset when a range is replaced, and where
        it leaves the caret when the whole value is set. */
    const moves: (int, Edit) -> int
    const dropsTo: int
    var text: JsString
    var selection: Selection

    constructor (can: Capabilities, moves: (int, Edit) -> int, dropsTo: int, text: JsString, selection: Selection)
      ensures this.can == can && this.moves == moves && this.dropsTo == dropsTo
      ensures this.text == text && this.selection == selection
    {
      this.can, this.moves, this.dropsTo, this.text, this.selection := can, moves, dropsTo, text, selection;
    }

    method ReplaceRange(e: Edit)
      requires can.replaceRange && e.from <= e.to <= |text|
      modifies this
      ensures text == old(text[..e.from] + e.text + text[e.to..])
      ensures selection == Selection(moves(old(selection.anchor), e), moves(old(selection.head), e))
    {
      text := text[..e.from] + e.text + text[e.to..];
      selection := Selection(moves(selection.anchor, e), moves(selection.head, e));
    }

    method SetValue(content: JsString)
      requires can.setValue
      modifies this
      ensures text == content && selection == Selection(dropsTo, dropsTo)
    {
      text, selection := content, Selection(dropsTo, dropsTo);
    }

    method ReadSelectionOffsets() returns (s: Option<Selection>)
      ensures s == if can.cursors then Some(selection) else None
    {
      return if can.cursors then Some(selection) else None;
    }

    method RestoreSelectionAfterEdit(before: Option<Selection>, edit: Option<Edit>, force: bool)
      modifies this`selection
      ensures before.None? || edit.None? || !can.offsetToPos ==> selection == old(selection)
      ensures before.Some? && edit.Some? && can.offsetToPos ==>
        var mapped := MapSelection(before.value, edit.value);
        if !force && can.cursors && Carried(old(selection), before.value, edit.value) then selection == old(selection)
        else if mapped.anchor != mapped.head && can.setSelection then selection == mapped
        else if can.setCursor then selection == Selection(mapped.head, mapped.head)
        else selection == old(selection)
    {
      if before.None? || edit.None? || !can.offsetToPos {
        return;
      }
      if !force {
        var actual := ReadSelectionOffsets();
        if actual.Some? && Carried(actual.value, before.value, edit.value) {
          return;
        }
      }
      var anchor := MapOffset(before.value.anchor, edit.value, false);
      var head := MapOffset(before.value.head, edit.value, false);
      if anchor != head && can.setSelection {
        selection := Selection(anchor, head);
        return;
      }
      if can.setCursor {
        selection := Selection(head, head);
      }
    }

    predicate CanWriteRange()
    {
      can.getValue && can.replaceRange && can.offsetToPos
    }

    /** The mode says what happened; after any write the editor shows the content, and
        a fully capable editor's carets stand where the smallest edit takes them. */
    method ApplyStreamingContent(content: JsString) returns (mode: WriteMode)
      modifies this
      ensures mode.Unchanged? <==> can.getValue && old(text) == content
      ensures mode.Ranged? <==> old(text) != content && can.getValue && can.replaceRange && can.offsetToPos
      ensures mode.FullReplace? <==>
        can.setValue && !(can.getValue && old(text) == content)
        && !(can.getValue && can.replaceRange && can.offsetToPos)
      ensures mode.Unchanged? || mode.Unsupported? ==> text == old(text) && selection == old(selection)
      ensures mode.Ranged? || mode.FullReplace? ==> text == content
      ensures mode.Ranged? && can.cursors && can.setSelection && can.setCursor ==>
        exists e :: Apt(old(text), content, e) && Carried(selection, old(selection), e)
      ensures mode.Ranged? && can.cursors && !can.setSelection && can.setCursor ==>
        exists e :: Apt(old(text), content, e) && Follows(selection.head, old(selection).head, e)
      ensures mode.Ranged? && !can.cursors ==>
        exists e :: Apt(old(text), content, e)
          && selection == Selection(moves(old(selection.anchor), e), moves(old(selection.head), e))
      ensures (mode.FullReplace? && can.getValue && can.cursors && can.offsetToPos
               && can.setSelection && can.setCursor) ==>
        exists e :: Apt(old(text), content, e) && selection == MapSelection(old(selection), e)
    {
      if can.getValue && text == content {
        return Unchanged;
      }
      ghost var was, carets := text, selection;
      if CanWriteRange() && text != content {
        var edit := ComputeMinimalEditRange(text, content);
        var e := edit.value;
        assert Apt(was, content, e);
        var before := ReadSelectionOffsets();
        ReplaceRange(e);
        RestoreSelectionAfterEdit(before, edit, false);
        return Ranged;
      }
      if !can.setValue {
        return Unsupported;
      }
      var before := None;
      if can.getValue { before := ReadSelectionOffsets(); }
      var previous := text;
      SetValue(content);
      if before.Some? && can.getValue {
        var edit := ComputeMinimalEditRange(previous, content);
        assert Apt(was, content, edit.value);
        RestoreSelectionAfterEdit(before, edit, true);
      }
      return FullReplace;
    }
  }
}
