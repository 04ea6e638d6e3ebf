/**
 * Undo/redo history of the editor (ui/UndoRedoManager.kt): two bounded
 * stacks of snapshots and a `current` snapshot that is in neither of them.
 */
module UndoRedo {
  import opened Wrappers
  import opened FixedStacks
  import opened TextFieldValues

  /** Capacity of each of the two stacks. */
  const Capacity: nat := 100

  /** The abstract state of the manager: both stacks oldest first, and the current snapshot. */
  datatype History = History(undo: seq<TextFieldValue>, redo: seq<TextFieldValue>, current: TextFieldValue)

  predicate Bounded(h: History)
  {
    |h.undo| <= Capacity && |h.redo| <= Capacity
  }

  /** `push`: a snapshot whose text equals the current text is ignored. */
  function PushEdit(h: History, v: TextFieldValue): (r: History)
    ensures Bounded(h) ==> Bounded(r)
    ensures v.text == h.current.text ==> r == h
    ensures v.text != h.current.text ==>
      && r.current == v
      && Top(r.undo) == Some(h.current)
      && r.redo == []
      && (|h.undo| < Capacity ==> r.undo == h.undo + [h.current])
  {
    if v.text != h.current.text then History(Pushed(h.undo, Capacity, h.current), [], v) else h
  }

  /** `undo`: the returned snapshot (if any) together with the new history. */
  function UndoStep(h: History): (r: (Option<TextFieldValue>, History))
    ensures Bounded(h) ==> Bounded(r.1)
    ensures h.undo == [] ==> r == (None, h)
    ensures h.undo != [] ==>
      && r.0 == Top(h.undo)
      && r.1.current == r.0.value
      && r.1.undo == Popped(h.undo)
      && Top(r.1.redo) == Some(h.current)
  {
    match Top(h.undo)
    case None => (None, h)
    case Some(previous) => (Some(previous), History(Popped(h.undo), Pushed(h.redo, Capacity, h.current), previous))
  }

  /** `redo`: symmetric to `undo`. */
  function RedoStep(h: History): (r: (Option<TextFieldValue>, History))
    ensures Bounded(h) ==> Bounded(r.1)
    ensures h.redo == [] ==> r == (None, h)
    ensures h.redo != [] ==>
      && r.0 == Top(h.redo)
      && r.1.current == r.0.value
      && r.1.redo == Popped(h.redo)
      && Top(r.1.undo) == Some(h.current)
  {
    match Top(h.redo)
    case None => (None, h)
    case Some(next) => (Some(next), History(Pushed(h.undo, Capacity, h.current), Popped(h.redo), next))
  }

  /** A successful undo immediately followed by a redo restores the current snapshot and the undo stack. */
  lemma UndoThenRedo(h: History)
    requires Bounded(h) && h.undo != []
    ensures var h1 := UndoStep(h).1;
      && RedoStep(h1).0 == Some(h.current)
      && RedoStep(h1).1.current == h.current
      && RedoStep(h1).1.undo == h.undo
      && (|h.redo| < Capacity ==> RedoStep(h1).1.redo == h.redo)
  {
    var h1 := UndoStep(h).1;
    assert h1.undo + [h.undo[|h.undo| - 1]] == h.undo;
  }

  /** A successful redo immediately followed by an undo restores the current snapshot and the redo stack. */
  lemma RedoThenUndo(h: History)
    requires Bounded(h) && h.redo != []
    ensures var h1 := RedoStep(h).1;
      && UndoStep(h1).0 == Some(h.current)
      && UndoStep(h1).1.current == h.current
      && UndoStep(h1).1.redo == h.redo
      && (|h.undo| < Capacity ==> UndoStep(h1).1.undo == h.undo)
  {
    var h1 := RedoStep(h).1;
    assert h1.redo + [h.redo[|h.redo| - 1]] == h.redo;
  }

  /** After a fresh edit there is nothing to redo. */
  lemma NoRedoAfterEdit(h: History, v: TextFieldValue)
    requires v.text != h.current.text
    ensures RedoStep(PushEdit(h, v)) == (None, PushEdit(h, v))
  {
  }

  class UndoRedoManager {
    const undoStack: FixedStack<TextFieldValue>
    const redoStack: FixedStack<TextFieldValue>
    var current: TextFieldValue
    /** The two observable flags `hasUndo` and `hasRedo`. */
    var hasUndo: bool
    var hasRedo: bool

    ghost function Model(): History
      reads this, undoStack, redoStack
    {
      History(undoStack.deque, redoStack.deque, current)
    }

    ghost predicate Valid()
      reads this, undoStack, redoStack
    {
      && undoStack != redoStack
      && undoStack.Valid() && redoStack.Valid()
      && undoStack.maxSize == Capacity && redoStack.maxSize == Capacity
      && hasUndo == undoStack.IsNotEmpty()
      && hasRedo == redoStack.IsNotEmpty()
    }

    constructor (initial: TextFieldValue)
      ensures Valid() && fresh(undoStack) && fresh(redoStack)
      ensures Model() == History([], [], initial)
      ensures !hasUndo && !hasRedo
    {
      undoStack := new FixedStack(Capacity);
      redoStack := new FixedStack(Capacity);
      current := initial;
      hasUndo := false;
      hasRedo := false;
    }

    function GetCurrent(): (r: TextFieldValue)
      reads this, undoStack, redoStack
      ensures r == Model().current
    {
      current
    }

    method Push(newValue: TextFieldValue)
      requires Valid()
      modifies this, undoStack, redoStack
      ensures Valid() && Bounded(Model())
      ensures Model() == PushEdit(old(Model()), newValue)
      ensures newValue.text == old(current.text) ==> hasUndo == old(hasUndo) && hasRedo == old(hasRedo)
    {
      if newValue.text != current.text {
        undoStack.Push(current);
        current := newValue;
        redoStack.Clear();
        UpdateStates();
      }
    }

    method Undo() returns (r: Option<TextFieldValue>)
      requires Valid()
      modifies this, undoStack, redoStack
      ensures Valid() && Bounded(Model())
      ensures (r, Model()) == UndoStep(old(Model()))
      ensures r.None? ==> hasUndo == old(hasUndo) && hasRedo == old(hasRedo)
    {
      r := undoStack.Pop();
      if r.Some? {
        redoStack.Push(current);
        current := r.value;
        UpdateStates();
      }
    }

    method Redo() returns (r: Option<TextFieldValue>)
      requires Valid()
      modifies this, undoStack, redoStack
      ensures Valid() && Bounded(Model())
      ensures (r, Model()) == RedoStep(old(Model()))
      ensures r.None? ==> hasUndo == old(hasUndo) && hasRedo == old(hasRedo)
    {
      r := redoStack.Pop();
      if r.Some? {
        undoStack.Push(current);
        current := r.value;
        UpdateStates();
      }
    }

    /** Re-derives both flags from the stacks. */
    method UpdateStates()
      modifies this`hasUndo, this`hasRedo
      ensures hasUndo == undoStack.IsNotEmpty() && hasRedo == redoStack.IsNotEmpty()
    {
      hasUndo := undoStack.IsNotEmpty();
      hasRedo := redoStack.IsNotEmpty();
    }
  }
}
