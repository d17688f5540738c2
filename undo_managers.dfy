// The undo manager of js/UndoManager.js. It keeps a stack of performed
// commands with the results their undo takes, a stack of undone commands with
// the results their redo takes, and a list of callbacks it invokes after every
// change. The stacks are specified on values (`History`, `PerformStep`,
// `UndoStep`, `RedoStep`), and class `UndoManager` is proved to follow them.
module UndoManagers {
  import opened Wrappers
  import Commands
  import Models

  /** A command together with the result its `undo` (or `redo`) is handed. */
  type Entry = (Commands.Command, Commands.Value)

  /** `undoList` and `redoList`; the last element is the top of each stack. */
  datatype History = History(undoList: seq<Entry>, redoList: seq<Entry>)

  /** Every entry holds a result its command's `undo` (or `redo`) can take. */
  predicate Shaped(h: History)
  {
    (forall i | 0 <= i < |h.undoList| :: Commands.PerformShaped(h.undoList[i].0, h.undoList[i].1))
    && (forall i | 0 <= i < |h.redoList| :: Commands.UndoShaped(h.redoList[i].0, h.redoList[i].1))
  }

  /**
   * `perform(command)`: a successful command is pushed with its result and
   * the redo stack is emptied; a failed one leaves both stacks alone (but
   * not necessarily the world, which the command may have changed).
   */
  function PerformStep(w: Commands.World, h: History, c: Commands.Command): (r: (Commands.World, History, Commands.Outcome))
    requires Commands.Kept(w) && Shaped(h)
    ensures Commands.Kept(r.0) && Shaped(r.1)
    ensures (r.0, r.2) == Commands.Perform(w, c)
    ensures r.2.success ==> r.1 == History(h.undoList + [(c, r.2.result)], [])
    ensures !r.2.success ==> r.1 == h
  {
    Commands.PerformShapes(w, c);
    var (w1, o) := Commands.Perform(w, c);
    if o.success then (w1, History(h.undoList + [(c, o.result)], []), o) else (w1, h, o)
  }

  /**
   * `undo()`: nothing happens on an empty undo stack (`None`, for
   * `undefined`); otherwise the top entry is popped and undone, and only a
   * successful undo moves it onto the redo stack.
   */
  function UndoStep(w: Commands.World, h: History): (r: (Commands.World, History, Option<Commands.Outcome>))
    requires Commands.Kept(w) && Shaped(h)
    ensures Commands.Kept(r.0) && Shaped(r.1)
    ensures r.2.None? <==> h.undoList == []
    ensures r.2.None? ==> r.0 == w && r.1 == h
    ensures r.2.Some? ==>
      var (c, v) := h.undoList[|h.undoList| - 1];
      (r.0, r.2.value) == Commands.Undo(w, c, v)
      && r.1.undoList == h.undoList[..|h.undoList| - 1]
      && r.1.redoList == h.redoList + if r.2.value.success then [(c, r.2.value.result)] else []
  {
    if h.undoList == [] then (w, h, None)
    else
      var (c, v) := h.undoList[|h.undoList| - 1];
      assert Commands.PerformShaped(c, v);
      Commands.UndoShapes(w, c, v);
      var (w1, o) := Commands.Undo(w, c, v);
      var rest := h.undoList[..|h.undoList| - 1];
      (w1, History(rest, h.redoList + if o.success then [(c, o.result)] else []), Some(o))
  }

  /**
   * `redo()`: nothing happens on an empty redo stack; otherwise the top
   * entry is popped and redone, and only a successful redo moves it back
   * onto the undo stack. The redo stack is not emptied.
   */
  function RedoStep(w: Commands.World, h: History): (r: (Commands.World, History, Option<Commands.Outcome>))
    requires Commands.Kept(w) && Shaped(h)
    ensures Commands.Kept(r.0) && Shaped(r.1)
    ensures r.2.None? <==> h.redoList == []
    ensures r.2.None? ==> r.0 == w && r.1 == h
    ensures r.2.Some? ==>
      var (c, v) := h.redoList[|h.redoList| - 1];
      (r.0, r.2.value) == Commands.Redo(w, c, v)
      && r.1.redoList == h.redoList[..|h.redoList| - 1]
      && r.1.undoList == h.undoList + if r.2.value.success then [(c, r.2.value.result)] else []
  {
    if h.redoList == [] then (w, h, None)
    else
      var (c, v) := h.redoList[|h.redoList| - 1];
      assert Commands.UndoShaped(c, v);
      Commands.RedoShapes(w, c, v);
      var (w1, o) := Commands.Redo(w, c, v);
      var rest := h.redoList[..|h.redoList| - 1];
      (w1, History(h.undoList + if o.success then [(c, o.result)] else [], rest), Some(o))
  }

  /**
   * Perform, undo, redo: for a command on the cart or the stock, a
   * successful perform followed by undo gives back the world and the undo
   * stack, with the command waiting on the redo stack; redo then gives back
   * exactly the world and both stacks the perform left.
   */
  lemma PerformUndoRedo(w: Commands.World, h: History, c: Commands.Command)
    requires Commands.Sound(w) && Shaped(h) && Commands.OnCartOrStock(c)
    ensures var (w1, h1, o1) := PerformStep(w, h, c);
      o1.success ==>
        var (w2, h2, o2) := UndoStep(w1, h1);
        o2.Some? && o2.value.success && w2 == w && h2.undoList == h.undoList && h2.redoList == [(c, o2.value.result)]
        && var (w3, h3, o3) := RedoStep(w2, h2);
        o3 == Some(o1) && w3 == w1 && h3 == h1
  {
    Commands.PerformUndoRestores(w, c);
    var (w1, h1, o1) := PerformStep(w, h, c);
    if o1.success {
      assert h1.undoList[..|h1.undoList| - 1] == h.undoList;
    }
  }

  /** A failed undo drops its entry: it is on neither stack afterwards. */
  lemma FailedUndoDrops(w: Commands.World, h: History)
    requires Commands.Kept(w) && Shaped(h)
    ensures var (_, h1, o) := UndoStep(w, h);
      o.Some? && !o.value.success ==>
        |h1.undoList| == |h.undoList| - 1 && h1.redoList == h.redoList
  {
  }

  /** The state of `new UndoManager()`. */
  const Empty: History := History([], [])

  /** Undo and redo are available exactly when the respective step does something. */
  lemma AvailableIffActs(w: Commands.World, h: History)
    requires Commands.Kept(w) && Shaped(h)
    ensures UndoStep(w, h).2.Some? <==> |h.undoList| > 0
    ensures RedoStep(w, h).2.Some? <==> |h.redoList| > 0
    ensures Shaped(Empty) && UndoStep(w, Empty).2.None? && RedoStep(w, Empty).2.None?
  {
  }

  class UndoManager {
    var callbacks: seq<nat>
    var undoList: seq<Entry>
    var redoList: seq<Entry>
    /** The callbacks invoked so far, in order of invocation. */
    var fired: seq<nat>

    function Stacks(): History
      reads this
    {
      History(undoList, redoList)
    }

    ghost predicate Valid()
      reads this
    {
      Shaped(Stacks())
    }

    /** `new UndoManager()`. */
    constructor()
      ensures Valid() && Stacks() == Empty && callbacks == [] && fired == []
    {
      callbacks := [];
      undoList := [];
      redoList := [];
      fired := [];
    }

    /** `undoAvailable()`. */
    function UndoAvailable(): (r: bool)
      reads this
      ensures r <==> |Stacks().undoList| > 0
    {
      |undoList| > 0
    }

    /** `redoAvailable()`. */
    function RedoAvailable(): (r: bool)
      reads this
      ensures r <==> |Stacks().redoList| > 0
    {
      |redoList| > 0
    }

    /** `registerCallback(callback)`; a callback is represented by a number naming it. */
    method RegisterCallback(callback: nat)
      modifies this
      ensures callbacks == old(callbacks) + [callback]
      ensures Stacks() == old(Stacks()) && fired == old(fired)
    {
      callbacks := callbacks + [callback];
    }

    /** `invokeCallbacks()`: every registered callback is invoked once, in order of registration. */
    method InvokeCallbacks()
      modifies this
      ensures fired == old(fired) + callbacks
      ensures callbacks == old(callbacks) && Stacks() == old(Stacks())
    {
      var i := 0;
      while i < |callbacks|
        invariant 0 <= i <= |callbacks|
        invariant fired == old(fired) + callbacks[..i]
        invariant callbacks == old(callbacks) && Stacks() == old(Stacks())
      {
        fired := fired + [callbacks[i]];
        i := i + 1;
      }
    }

    /** `perform(command)` on the page model `m`; the callbacks run only after a success. */
    method Perform(m: Models.Model, c: Commands.Command) returns (o: Commands.Outcome)
      requires Valid() && m.Valid()
      modifies this, m, m.stock, m.orderList, m.menu
      ensures Valid() && m.Valid()
      ensures (m.World(), Stacks(), o) == PerformStep(old(m.World()), old(Stacks()), c)
      ensures callbacks == old(callbacks)
      ensures fired == old(fired) + if o.success then callbacks else []
    {
      ghost var w, h := m.World(), Stacks();
      ghost var step := PerformStep(w, h, c);
      o := m.Perform(c);
      if o.success {
        undoList := undoList + [(c, o.result)];
        redoList := [];
        assert Stacks() == step.1;
        InvokeCallbacks();
      }
    }

    /** `undo()` on the page model `m`; the callbacks run whenever there was something to undo. */
    method Undo(m: Models.Model) returns (r: Option<Commands.Outcome>)
      requires Valid() && m.Valid()
      modifies this, m, m.stock, m.orderList, m.menu
      ensures Valid() && m.Valid()
      ensures (m.World(), Stacks(), r) == UndoStep(old(m.World()), old(Stacks()))
      ensures callbacks == old(callbacks)
      ensures fired == old(fired) + if r.Some? then callbacks else []
    {
      ghost var w, h := m.World(), Stacks();
      ghost var step := UndoStep(w, h);
      if |undoList| == 0 {
        return None;
      }
      var (c, v) := undoList[|undoList| - 1];
      assert Commands.PerformShaped(c, v);
      undoList := undoList[..|undoList| - 1];
      var o := m.Undo(c, v);
      if o.success {
        redoList := redoList + [(c, o.result)];
      }
      assert (m.World(), o) == (step.0, step.2.value);
      assert Stacks() == step.1;
      InvokeCallbacks();
      r := Some(o);
    }

    /** `redo()` on the page model `m`; the callbacks run whenever there was something to redo. */
    method Redo(m: Models.Model) returns (r: Option<Commands.Outcome>)
      requires Valid() && m.Valid()
      modifies this, m, m.stock, m.orderList, m.menu
      ensures Valid() && m.Valid()
      ensures (m.World(), Stacks(), r) == RedoStep(old(m.World()), old(Stacks()))
      ensures callbacks == old(callbacks)
      ensures fired == old(fired) + if r.Some? then callbacks else []
    {
      ghost var w, h := m.World(), Stacks();
      ghost var step := RedoStep(w, h);
      if |redoList| == 0 {
        return None;
      }
      var (c, v) := redoList[|redoList| - 1];
      assert Commands.UndoShaped(c, v);
      redoList := redoList[..|redoList| - 1];
      var o := m.Redo(c, v);
      if o.success {
        undoList := undoList + [(c, o.result)];
      }
      assert (m.World(), o) == (step.0, step.2.value);
      assert Stacks() == step.1;
      InvokeCallbacks();
      r := Some(o);
    }
  }
}
