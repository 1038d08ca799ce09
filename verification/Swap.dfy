/** `deploy/macos/provision.py`: two directories are each replaced by a pair of renames; the undo loop can be run again. */
module Swap {
  import opened Common

  /** A directory tree; `Partial` while it is still being copied. */
  datatype Tree = Partial | Whole(files: map<string, bytes>)

  /** The four places where the trees of one name can be: in use, and in the backup directory as `name`,
      `new-name` and `removed-name`. */
  datatype Slots = Slots(live: Option<Tree>, saved: Option<Tree>, incoming: Option<Tree>, removed: Option<Tree>)

  datatype Outcome = Done | Interrupted

  /** Until the receipt names it, the original is in use and at most a copy of the replacement exists. From then on the
      original is either in use or saved, and the replacement is whole and in exactly one place. */
  predicate Sound(s: Slots, moved: bool, original: Option<Tree>, replacement: Tree) {
    if !moved then s == Slots(original, None, s.incoming, None)
    else if s.saved.None? then
      && s.live == original
      && (|| (s.incoming == Some(replacement) && s.removed.None?)
          || (s.incoming.None? && s.removed == Some(replacement)))
    else
      && s.saved == original
      && (|| (s.live == Some(replacement) && s.incoming.None? && s.removed.None?)
          || (s.live.None? && s.incoming == Some(replacement) && s.removed.None?)
          || (s.live.None? && s.incoming.None? && s.removed == Some(replacement)))
  }

  /** Between `before` and `after` trees have only been moved, into places that were free: what was live to
      `removed-name` and what was saved to the live path, or as far as that has come. */
  predicate Moves(before: Slots, after: Slots) {
    || after == before
    || (before.saved.Some? && before.live.None? && after == before.(saved := None, live := before.saved))
    || (before.saved.Some? && before.live.Some? && before.removed.None?
        && (|| after == before.(live := None, removed := before.live)
            || after == before.(saved := None, live := before.saved, removed := before.live)))
  }

  ghost predicate OnlyMoved(before: map<string, Slots>, after: map<string, Slots>) {
    && before.Keys == after.Keys
    && forall name {:trigger before[name]} {:trigger after[name]} :: name in before ==> Moves(before[name], after[name])
  }

  lemma OnlyMovedTransitive(a: map<string, Slots>, b: map<string, Slots>, c: map<string, Slots>)
    requires OnlyMoved(a, b) && OnlyMoved(b, c)
    ensures OnlyMoved(a, c)
  {
    forall name | name in a ensures Moves(a[name], c[name]) {
      assert Moves(a[name], b[name]) && Moves(b[name], c[name]);
    }
  }

  class Machine {
    var slots: map<string, Slots>
    /** `receipt["moved"]` as last saved */
    var moved: set<string>
    /** How many more file operations happen before the interruption. */
    var budget: nat

    /** The trees in use before anything happens. */
    constructor (live: map<string, Option<Tree>>, budget: nat)
      ensures slots.Keys == live.Keys && moved == {} && this.budget == budget
      ensures forall name :: name in live ==> slots[name] == Slots(live[name], None, None, None)
    {
      slots := map name | name in live :: Slots(live[name], None, None, None);
      moved, this.budget := {}, budget;
    }

    ghost predicate AllSound(originals: map<string, Option<Tree>>, replacements: map<string, Tree>)
      reads this
    {
      && slots.Keys == originals.Keys == replacements.Keys
      && forall name :: name in slots ==> Sound(slots[name], name in moved, originals[name], replacements[name])
    }

    method Operation() returns (alive: bool)
      modifies this`budget
      ensures alive <==> old(budget) > 0
      ensures alive ==> budget == old(budget) - 1
    {
      alive := budget > 0;
      if alive {
        budget := budget - 1;
      }
    }

    // The renames. Each requires that its target does not exist: nothing is ever overwritten.

    method SaveLive(name: string) returns (alive: bool)
      requires name in slots && slots[name].live.Some? && slots[name].saved.None?
      modifies this`budget, this`slots
      ensures alive <==> old(budget) > 0
      ensures alive ==> budget == old(budget) - 1
      ensures slots == if alive then old(slots)[name := old(slots)[name].(live := None, saved := old(slots)[name].live)]
                       else old(slots)
    {
      alive := Operation();
      if alive {
        var s := slots[name];
        slots := slots[name := s.(live := None, saved := s.live)];
      }
    }

    method InstallNew(name: string) returns (alive: bool)
      requires name in slots && slots[name].incoming.Some? && slots[name].live.None?
      modifies this`budget, this`slots
      ensures alive <==> old(budget) > 0
      ensures alive ==> budget == old(budget) - 1
      ensures slots == if alive then old(slots)[name := old(slots)[name].(incoming := None, live := old(slots)[name].incoming)]
                       else old(slots)
    {
      alive := Operation();
      if alive {
        var s := slots[name];
        slots := slots[name := s.(incoming := None, live := s.incoming)];
      }
    }

    method RemoveLive(name: string) returns (alive: bool)
      requires name in slots && slots[name].live.Some? && slots[name].removed.None?
      modifies this`budget, this`slots
      ensures alive <==> old(budget) > 0
      ensures alive ==> budget == old(budget) - 1
      ensures slots == if alive then old(slots)[name := old(slots)[name].(live := None, removed := old(slots)[name].live)]
                       else old(slots)
    {
      alive := Operation();
      if alive {
        var s := slots[name];
        slots := slots[name := s.(live := None, removed := s.live)];
      }
    }

    method RestoreSaved(name: string) returns (alive: bool)
      requires name in slots && slots[name].saved.Some? && slots[name].live.None?
      modifies this`budget, this`slots
      ensures alive <==> old(budget) > 0
      ensures alive ==> budget == old(budget) - 1
      ensures slots == if alive then old(slots)[name := old(slots)[name].(saved := None, live := old(slots)[name].saved)]
                       else old(slots)
    {
      alive := Operation();
      if alive {
        var s := slots[name];
        slots := slots[name := s.(saved := None, live := s.saved)];
      }
    }

    /** `shutil.copytree`: the copy is partial until it is whole. */
    method CopyNew(name: string, source: Tree) returns (alive: bool)
      requires name in slots && slots[name].incoming.None?
      modifies this`budget, this`slots
      ensures slots.Keys == old(slots).Keys
      ensures forall other :: other in slots && other != name ==> slots[other] == old(slots)[other]
      ensures slots[name] == old(slots)[name].(incoming := slots[name].incoming)
      ensures alive ==> slots[name].incoming == Some(source)
      ensures alive <==> old(budget) >= 2
      ensures alive ==> budget == old(budget) - 2
    {
      alive := Operation();
      if !alive { return; }
      slots := slots[name := slots[name].(incoming := Some(Partial))];
      alive := Operation();
      if !alive { return; }
      slots := slots[name := slots[name].(incoming := Some(source))];
    }

    /** The two renames that put a whole copy into use. */
    method Exchange(name: string, ghost originals: map<string, Option<Tree>>, ghost replacements: map<string, Tree>)
        returns (outcome: Outcome)
      requires AllSound(originals, replacements) && name in slots && name in moved
      requires slots[name] == Slots(originals[name], None, Some(replacements[name]), None)
      modifies this`budget, this`slots
      ensures AllSound(originals, replacements)
      ensures forall other :: other in slots && other != name ==> slots[other] == old(slots)[other]
      ensures outcome == Done ==> slots[name] == Slots(Some(replacements[name]), originals[name], None, None)
      ensures outcome == Done <==> originals[name].Some? && old(budget) >= 2
      ensures outcome == Done ==> budget == old(budget) - 2
    {
      if slots[name].live.None? {
        // The rename fails.
        return Interrupted;
      }
      var alive := SaveLive(name);
      if !alive { return Interrupted; }
      alive := InstallNew(name);
      outcome := if alive then Done else Interrupted;
    }

    /** Replace one tree. The receipt names it before its original moves. */
    method SwapOne(name: string, ghost originals: map<string, Option<Tree>>, replacements: map<string, Tree>)
        returns (outcome: Outcome)
      requires AllSound(originals, replacements) && name in slots
      requires name !in moved && slots[name] == Slots(originals[name], None, None, None)
      modifies this`budget, this`slots, this`moved
      ensures AllSound(originals, replacements)
      ensures moved <= old(moved) + {name}
      ensures forall other :: other in slots && other != name ==> slots[other] == old(slots)[other]
      ensures outcome == Done ==> slots[name] == Slots(Some(replacements[name]), originals[name], None, None)
      ensures outcome == Done <==> originals[name].Some? && old(budget) >= 5
      ensures outcome == Done ==> budget == old(budget) - 5
      ensures name in moved <==> old(budget) >= 3
    {
      var alive := CopyNew(name, replacements[name]);
      if !alive { return Interrupted; }
      alive := Operation();
      if !alive { return Interrupted; }
      moved := moved + {name};
      outcome := Exchange(name, originals, replacements);
    }

    /** `apply`, as far as the directories go, in a fresh backup directory. */
    method Apply(names: seq<string>, ghost originals: map<string, Option<Tree>>, replacements: map<string, Tree>)
        returns (outcome: Outcome)
      requires slots.Keys == originals.Keys == replacements.Keys && moved == {}
      requires forall name :: name in slots ==> slots[name] == Slots(originals[name], None, None, None)
      requires forall name :: name in names ==> name in slots
      requires forall i, j :: 0 <= i < j < |names| ==> names[i] != names[j]
      modifies this`budget, this`slots, this`moved
      ensures AllSound(originals, replacements)
      ensures outcome == Done ==> forall name :: name in names ==>
                slots[name] == Slots(Some(replacements[name]), originals[name], None, None)
      ensures outcome == Done <==> old(budget) >= 5 * |names| && forall name :: name in names ==> originals[name].Some?
    {
      var i := 0;
      while i < |names|
        invariant i <= |names| && AllSound(originals, replacements)
        invariant budget == old(budget) - 5 * i
        invariant forall k :: 0 <= k < i ==> originals[names[k]].Some?
        invariant forall k :: 0 <= k < i ==>
                    slots[names[k]] == Slots(Some(replacements[names[k]]), originals[names[k]], None, None)
        invariant forall k :: i <= k < |names| ==>
                    names[k] !in moved && slots[names[k]] == Slots(originals[names[k]], None, None, None)
      {
        outcome := SwapOne(names[i], originals, replacements);
        if outcome == Interrupted {
          return;
        }
        i := i + 1;
      }
      return Done;
    }

    /** One turn of the undo loop. */
    method UndoOne(name: string, ghost originals: map<string, Option<Tree>>, ghost replacements: map<string, Tree>)
        returns (outcome: Outcome)
      requires AllSound(originals, replacements) && name in slots
      modifies this`budget, this`slots
      ensures AllSound(originals, replacements)
      ensures OnlyMoved(old(slots), slots)
      ensures forall other :: other in slots && other != name ==> slots[other] == old(slots)[other]
      ensures outcome == Done ==> slots[name].live == originals[name] && slots[name].saved.None?
      ensures outcome == Done ==> budget >= old(budget) - 2
      ensures old(budget) >= 2 ==> outcome == Done
    {
      if name in moved && slots[name].saved.Some? {
        if slots[name].live.Some? {
          var alive := RemoveLive(name);
          if !alive { return Interrupted; }
        }
        var alive := RestoreSaved(name);
        if !alive { return Interrupted; }
      }
      return Done;
    }

    /** The undo loop of `rollback`. */
    method Undo(names: seq<string>, ghost originals: map<string, Option<Tree>>, ghost replacements: map<string, Tree>)
        returns (outcome: Outcome)
      requires AllSound(originals, replacements)
      requires forall name :: name in slots <==> name in names
      modifies this`budget, this`slots
      ensures AllSound(originals, replacements)
      ensures OnlyMoved(old(slots), slots)
      ensures outcome == Done ==> forall name :: name in slots ==>
                slots[name].live == originals[name] && slots[name].saved.None?
      ensures old(budget) >= 2 * |names| ==> outcome == Done
    {
      var i := 0;
      while i < |names|
        invariant i <= |names| && AllSound(originals, replacements)
        invariant OnlyMoved(old(slots), slots)
        invariant forall k :: 0 <= k < i ==>
                    slots[names[k]].live == originals[names[k]] && slots[names[k]].saved.None?
        invariant budget >= old(budget) - 2 * i
      {
        assert names[i] in names;
        ghost var before := slots;
        outcome := UndoOne(names[i], originals, replacements);
        OnlyMovedTransitive(old(slots), before, slots);
        if outcome == Interrupted {
          return;
        }
        i := i + 1;
      }
      forall name | name in slots ensures slots[name].live == originals[name] && slots[name].saved.None? {
        var k :| 0 <= k < |names| && names[k] == name;
      }
      return Done;
    }

    /** The undo loop may be interrupted and started again any number of times: every run that is not interrupted
        puts the originals back, and later runs leave them there. */
    method UndoRepeatedly(names: seq<string>, budgets: seq<nat>,
                          ghost originals: map<string, Option<Tree>>, ghost replacements: map<string, Tree>)
      requires AllSound(originals, replacements)
      requires forall name :: name in slots <==> name in names
      modifies this`budget, this`slots
      ensures AllSound(originals, replacements) && OnlyMoved(old(slots), slots)
      ensures (exists i :: 0 <= i < |budgets| && budgets[i] >= 2 * |names|) ==>
                forall name :: name in slots ==> slots[name].live == originals[name] && slots[name].saved.None?
    {
      var i := 0;
      while i < |budgets|
        invariant i <= |budgets| && AllSound(originals, replacements) && OnlyMoved(old(slots), slots)
        invariant (exists k :: 0 <= k < i && budgets[k] >= 2 * |names|) ==>
                    forall name :: name in slots ==> slots[name].saved.None?
      {
        budget := budgets[i];
        ghost var before := slots;
        var outcome := Undo(names, originals, replacements);
        OnlyMovedTransitive(old(slots), before, slots);
        i := i + 1;
      }
    }

    /** Interrupt `apply` anywhere, then run the undo loop any number of times, interrupted or not: once it has run to
        its end, every original is in use again, and the replacement of every name in the receipt is still whole. */
    method ApplyThenUndo(names: seq<string>, budgets: seq<nat>,
                         ghost originals: map<string, Option<Tree>>, replacements: map<string, Tree>)
      requires slots.Keys == originals.Keys == replacements.Keys && moved == {}
      requires forall name :: name in slots ==> slots[name] == Slots(originals[name], None, None, None)
      requires forall name :: name in slots <==> name in names
      requires forall i, j :: 0 <= i < j < |names| ==> names[i] != names[j]
      modifies this
      ensures AllSound(originals, replacements)
      ensures (exists i :: 0 <= i < |budgets| && budgets[i] >= 2 * |names|) ==>
                forall name :: name in slots ==> Undone(slots[name], name in moved, originals[name], replacements[name])
    {
      var outcome := Apply(names, originals, replacements);
      UndoRepeatedly(names, budgets, originals, replacements);
    }
  }

  /** The original is in use; a replacement that the receipt names is whole, in one of two places. */
  predicate Undone(s: Slots, moved: bool, original: Option<Tree>, replacement: Tree) {
    && s.live == original && s.saved.None?
    && (moved ==> (s.incoming, s.removed) == (Some(replacement), None) || (s.incoming, s.removed) == (None, Some(replacement)))
    && (!moved ==> s.removed.None?)
  }

  /** Whatever undo loops do one after another, nothing is lost: from sound states they lead to sound states, exactly
      where a name is complete its original is in use again while the replacement is still whole, and there it stays. */
  lemma {:induction false} NothingIsLost(states: seq<map<string, Slots>>, i: nat, k: nat, name: string, moved: bool,
                                         original: Option<Tree>, replacement: Tree)
    requires forall n :: 0 <= n < |states| - 1 ==> OnlyMoved(states[n], states[n + 1])
    requires i <= k < |states| && name in states[i] && Sound(states[i][name], moved, original, replacement)
    ensures name in states[k] && Sound(states[k][name], moved, original, replacement)
    ensures states[k][name].saved.None? <==> Undone(states[k][name], moved, original, replacement)
    ensures Undone(states[i][name], moved, original, replacement) ==> states[k][name] == states[i][name]
    decreases k
  {
    if i < k {
      var m := k - 1;
      NothingIsLost(states, i, m, name, moved, original, replacement);
      assert OnlyMoved(states[m], states[m + 1]);
      assert Moves(states[m][name], states[k][name]);
    }
  }
}
