/** The undo/redo history (Commands/CommandHistory.cs): two stacks of commands, each modelled as a
    sequence whose last element is the top. */
module History {
  import opened Shapes
  import opened Scenes
  import opened Commands

  class CommandHistory {
    var undoStack: seq<Command>
    var redoStack: seq<Command>

    constructor ()
      ensures undoStack == [] && redoStack == []
    {
      undoStack := [];
      redoStack := [];
    }

    /** Runs a new command, makes it the next one to undo and forgets everything that could be redone. */
    method Execute(c: Command)
      modifies this, c.Target()
      ensures Executed(c)
      ensures undoStack == old(undoStack) + [c]
      ensures redoStack == []
    {
      c.Execute();
      undoStack := undoStack + [c];
      redoStack := [];
    }

    /** With an empty undo stack nothing happens; otherwise the top command is popped, undone and
        pushed on the redo stack. */
    method Undo()
      modifies this, if undoStack == [] then {} else {undoStack[|undoStack| - 1].Target()}
      ensures old(undoStack) == [] ==> undoStack == [] && redoStack == old(redoStack)
      ensures old(undoStack) != [] ==>
                var c := old(undoStack)[|old(undoStack)| - 1];
                Undone(c) &&
                undoStack == old(undoStack)[..|old(undoStack)| - 1] &&
                redoStack == old(redoStack) + [c]
    {
      if |undoStack| > 0 {
        var c := undoStack[|undoStack| - 1];
        undoStack := undoStack[..|undoStack| - 1];
        c.Undo();
        redoStack := redoStack + [c];
      }
    }

    /** With an empty redo stack nothing happens; otherwise the top command is popped, executed again
        and pushed back on the undo stack (the redo stack is kept). */
    method Redo()
      modifies this, if redoStack == [] then {} else {redoStack[|redoStack| - 1].Target()}
      ensures old(redoStack) == [] ==> undoStack == old(undoStack) && redoStack == []
      ensures old(redoStack) != [] ==>
                var c := old(redoStack)[|old(redoStack)| - 1];
                Executed(c) &&
                redoStack == old(redoStack)[..|old(redoStack)| - 1] &&
                undoStack == old(undoStack) + [c]
    {
      if |redoStack| > 0 {
        var c := redoStack[|redoStack| - 1];
        redoStack := redoStack[..|redoStack| - 1];
        c.Execute();
        undoStack := undoStack + [c];
      }
    }
  }

  /** Undo followed by Redo leaves both stacks as they were. */
  method UndoThenRedo(h: CommandHistory)
    requires h.undoStack != []
    modifies h, h.undoStack[|h.undoStack| - 1].Target()
    ensures h.undoStack == old(h.undoStack) && h.redoStack == old(h.redoStack)
  {
    h.Undo();
    h.Redo();
  }

  /** A command executed through the history, undone and redone, leaves its target as executing it
      alone did: a moved shape other than a rectangle, a created shape that was not yet in the
      scene, a deleted shape that occurred at most once. The stacks end as after the execution. */
  method ExecuteUndoRedo(h: CommandHistory, c: Command)
    modifies h, c.Target()
    ensures h.undoStack == old(h.undoStack) + [c] && h.redoStack == []
    ensures c.MoveShape? && !old(c.shape.figure).Rectangle? ==> Executed(c)
    ensures c.CreateShape? && c.shape !in old(c.scene.shapes) ==> Executed(c)
    ensures c.DeleteShape? && multiset(old(c.scene.shapes))[c.shape] <= 1 ==> Executed(c)
  {
    h.Execute(c);
    h.Undo();
    h.Redo();
    match c
    case CreateShape(s, sh) =>
      if sh !in old(s.shapes) {
        RemoveAppended(old(s.shapes), sh);
      }
    case DeleteShape(s, sh) =>
      if multiset(old(s.shapes))[sh] <= 1 {
        RedoOfDeleteRestores(old(s.shapes), sh);
      }
    case MoveShape(sh, d) =>
      if !old(sh.figure).Rectangle? {
        MoveRoundTrip(old(sh.Value()), d);
      }
  }

  /** Undoing the creation of a shape that was not in the scene before takes the scene back. */
  method UndoCreate(h: CommandHistory, s: Scene, a: Shape, before: seq<Shape>)
    requires h.undoStack != [] && h.undoStack[|h.undoStack| - 1] == CreateShape(s, a)
    requires a !in before && s.shapes == before + [a]
    modifies h, s
    ensures s.shapes == before
    ensures h.undoStack == old(h.undoStack)[..|old(h.undoStack)| - 1]
    ensures h.redoStack == old(h.redoStack) + [CreateShape(s, a)]
  {
    h.Undo();
    RemoveAppended(before, a);
  }

  /** Two shapes created through the history and then both undone leave the scene as it was and the
      redo stack holding the two commands, the first one on top. */
  method CreateTwoThenUndoTwo(h: CommandHistory, s: Scene, a: Shape, b: Shape)
    requires a != b && a !in s.shapes && b !in s.shapes
    modifies h, s
    ensures s.shapes == old(s.shapes)
    ensures h.undoStack == old(h.undoStack)
    ensures h.redoStack == [CreateShape(s, b), CreateShape(s, a)]
  {
    var before, u := s.shapes, h.undoStack;
    var ca, cb := CreateShape(s, a), CreateShape(s, b);
    h.Execute(ca);
    h.Execute(cb);
    assert h.undoStack == u + [ca] + [cb];
    UndoCreate(h, s, b, before + [a]);
    assert h.undoStack == u + [ca];
    UndoCreate(h, s, a, before);
  }
}
