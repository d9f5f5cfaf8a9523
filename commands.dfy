/** The undoable commands (Commands/CreateShapeCommand.cs, DeleteShapeCommand.cs, MoveShapeCommand.cs).
    A command holds references to the scene or shape it acts on; executing and undoing it changes
    that object in place. */
module Commands {
  import opened Vectors
  import opened Shapes
  import opened Scenes

  datatype Command =
    | CreateShape(scene: Scene, shape: Shape)
    | DeleteShape(scene: Scene, shape: Shape)
    | MoveShape(shape: Shape, delta: Vec2)
  {
    /** The one object a command changes: the scene for create and delete, the shape for move. */
    function Target(): object {
      match this
      case CreateShape(s, _) => s
      case DeleteShape(s, _) => s
      case MoveShape(sh, _) => sh
    }

    /** Create adds the shape on top of the scene, delete removes it, move translates the shape. */
    method Execute()
      modifies Target()
      ensures Executed(this)
    {
      match this
      case CreateShape(s, sh) => s.Add(sh);
      case DeleteShape(s, sh) => s.Remove(sh);
      case MoveShape(sh, d) => sh.Move(d);
    }

    /** Each Undo applies the opposite operation: create removes, delete adds back on top,
        move translates by the negated delta. */
    method Undo()
      modifies Target()
      ensures Undone(this)
    {
      match this
      case CreateShape(s, sh) => s.Remove(sh);
      case DeleteShape(s, sh) => s.Add(sh);
      case MoveShape(sh, d) => sh.Move(Vec2(-d.x, -d.y));
    }
  }

  /** The state change of Execute, between the state before and the state after. */
  twostate predicate Executed(c: Command)
    reads c.Target()
  {
    match c
    case CreateShape(s, sh) => s.shapes == old(s.shapes) + [sh]
    case DeleteShape(s, sh) => s.shapes == RemoveFirst(old(s.shapes), sh)
    case MoveShape(sh, d) => sh.Value() == old(sh.Value()).Moved(d)
  }

  /** The state change of Undo. */
  twostate predicate Undone(c: Command)
    reads c.Target()
  {
    match c
    case CreateShape(s, sh) => s.shapes == RemoveFirst(old(s.shapes), sh)
    case DeleteShape(s, sh) => s.shapes == old(s.shapes) + [sh]
    case MoveShape(sh, d) => sh.Value() == old(sh.Value()).Moved(d.Negated())
  }

  /** Executing a command and undoing it restores what it changed: for a move of a shape other than
      a rectangle (whose Move is not part of this model); for a create
      when the shape was not already in the scene; for a delete when the shape occurred once and was
      topmost (a delete of a lower shape comes back on top, so the z-order differs). Undoing a delete
      of a shape that was not in the scene adds it anyway. */
  method ExecuteThenUndo(c: Command)
    modifies c.Target()
    ensures c.MoveShape? && !old(c.shape.figure).Rectangle? ==> c.shape.Value() == old(c.shape.Value())
    ensures c.CreateShape? && c.shape !in old(c.scene.shapes) ==> c.scene.shapes == old(c.scene.shapes)
    ensures c.DeleteShape? && c.shape !in old(c.scene.shapes) ==> c.scene.shapes == old(c.scene.shapes) + [c.shape]
    ensures c.DeleteShape? && multiset(old(c.scene.shapes))[c.shape] <= 1 ==>
              (c.scene.shapes == old(c.scene.shapes) <==>
               |old(c.scene.shapes)| > 0 && old(c.scene.shapes)[|old(c.scene.shapes)| - 1] == c.shape)
  {
    c.Execute();
    c.Undo();
    match c
    case CreateShape(s, sh) =>
      if sh !in old(s.shapes) {
        RemoveAppended(old(s.shapes), sh);
      }
    case DeleteShape(s, sh) =>
      if multiset(old(s.shapes))[sh] <= 1 {
        ReappendRestoresWhenUnique(old(s.shapes), sh);
      }
    case MoveShape(sh, d) =>
      if !old(sh.figure).Rectangle? {
        MoveRoundTrip(old(sh.Value()), d);
      }
  }
}
