/** frontend/components/MissionStepper.jsx: the list of a mission's tasks
    as steps. A required task stays locked until the previous one has
    some progress; a locked step ignores clicks. */
module MissionStepper {
  import opened Wrappers
  import opened Strings

  // ---------------------------------------------------------------------
  // class names
  // ---------------------------------------------------------------------

  /** `classes.filter(Boolean)`: the non-empty class names, in order; None
      stands for `false`, `null` and `undefined`. */
  function Kept(classes: seq<Option<string>>): (r: seq<string>)
    ensures forall i :: 0 <= i < |r| ==> r[i] != ""
    ensures forall c :: c in r <==> c != "" && Some(c) in classes
    ensures |r| <= |classes|
  {
    if classes == [] then []
    else
      var rest := Kept(classes[1..]);
      assert classes == [classes[0]] + classes[1..];
      if classes[0].Some? && classes[0].value != "" then [classes[0].value] + rest else rest
  }

  /** `cx(...classes)`: the kept class names joined with single spaces. */
  function Cx(classes: seq<Option<string>>): string
  {
    Join(Kept(classes), ' ')
  }

  /** One unfolding of `Kept` on a first argument and the rest. */
  lemma KeptCons(c: Option<string>, rest: seq<Option<string>>)
    ensures Kept([c] + rest) == (if c.Some? && c.value != "" then [c.value] else []) + Kept(rest)
  {
    assert ([c] + rest)[0] == c && ([c] + rest)[1..] == rest;
  }

  /** `filter(Boolean)` keeps order and repeats: filtering a concatenation
      filters each part in turn. */
  lemma {:induction false} KeptAppend(a: seq<Option<string>>, b: seq<Option<string>>)
    ensures Kept(a + b) == Kept(a) + Kept(b)
    decreases |a|
  {
    if a == [] {
      assert a + b == b;
    } else {
      var c := a[0];
      var head: seq<string> := if c.Some? && c.value != "" then [c.value] else [];
      ConsAppend(a, b);
      KeptCons(c, a[1..] + b);
      KeptCons(c, a[1..]);
      KeptAppend(a[1..], b);
      AppendAssoc(head, Kept(a[1..]), Kept(b));
    }
  }

  /** A single argument is kept exactly when it is a non-empty string. */
  lemma KeptOne(c: Option<string>)
    ensures Kept([c]) == if c.Some? && c.value != "" then [c.value] else []
  {
    assert [c][1..] == [];
  }

  /** The non-empty pieces, in order. */
  function NonEmpty(pieces: seq<string>): (r: seq<string>)
    ensures forall p :: p in r <==> p in pieces && p != ""
  {
    if pieces == [] then []
    else
      assert pieces == [pieces[0]] + pieces[1..];
      (if pieces[0] != "" then [pieces[0]] else []) + NonEmpty(pieces[1..])
  }

  lemma {:induction false} NonEmptyAppend(a: seq<string>, b: seq<string>)
    ensures NonEmpty(a + b) == NonEmpty(a) + NonEmpty(b)
    decreases |a|
  {
    if a == [] {
      assert a + b == b;
    } else {
      var head: seq<string> := if a[0] != "" then [a[0]] else [];
      ConsAppend(a, b);
      assert (a + b)[0] == a[0] && (a + b)[1..] == a[1..] + b;
      NonEmptyAppend(a[1..], b);
      AppendAssoc(head, NonEmpty(a[1..]), NonEmpty(b));
    }
  }

  /** The class tokens of an attribute value: its space-separated words. */
  function Words(s: string): seq<string>
  {
    NonEmpty(Split(s, ' '))
  }

  /** The words of each name in turn. */
  function WordsOfAll(names: seq<string>): seq<string>
  {
    if names == [] then [] else Words(names[0]) + WordsOfAll(names[1..])
  }

  lemma {:induction false} WordsOfJoin(names: seq<string>)
    requires names != []
    ensures Words(Join(names, ' ')) == WordsOfAll(names)
    decreases |names|
  {
    if |names| == 1 {
      assert WordsOfAll(names[1..]) == [];
      assert Words(names[0]) + [] == Words(names[0]);
    } else {
      SplitConcat(names[0], Join(names[1..], ' '), ' ');
      NonEmptyAppend(Split(names[0], ' '), Split(Join(names[1..], ' '), ' '));
      WordsOfJoin(names[1..]);
    }
  }

  /** The class tokens of the attribute are exactly the tokens of the kept
      arguments, in argument order: a multi-class argument such as
      "w-full flex" contributes each of its classes, a falsy argument
      contributes nothing, and no two classes are merged. */
  lemma CxSplitsBack(classes: seq<Option<string>>)
    ensures Kept(classes) == [] ==> Cx(classes) == ""
    ensures Words(Cx(classes)) == WordsOfAll(Kept(classes))
  {
    var kept := Kept(classes);
    if kept == [] {
      assert Split("", ' ') == [""];
      assert NonEmpty([""]) == NonEmpty([""][1..]);
    } else {
      WordsOfJoin(kept);
    }
  }

  // ---------------------------------------------------------------------
  // steps
  // ---------------------------------------------------------------------

  /** The fields of a task that the stepper's rules read. */
  datatype Task = Task(id: nat, isRequired: bool)

  /** The progress map: a task id with an entry maps to that entry's
      `status`, None when the entry has none. */
  type ProgressMap = map<nat, Option<string>>

  /** `progressMap[id]?.status` is truthy. */
  predicate HasStatus(progress: ProgressMap, id: nat)
  {
    id in progress && progress[id].Some? && progress[id].value != ""
  }

  /** `progress?.status === "completed"`. */
  predicate IsCompleted(progress: ProgressMap, id: nat)
  {
    id in progress && progress[id] == Some("completed")
  }

  /** The `locked` rule for position `index`. */
  predicate Locked(tasks: seq<Task>, index: nat, progress: ProgressMap)
    requires index < |tasks|
  {
    tasks[index].isRequired && index > 0 && !HasStatus(progress, tasks[index - 1].id)
  }

  /** What each button shows. */
  datatype Step = Step(id: nat, locked: bool, completed: bool, current: bool)

  /** The rendered steps, in task order; None when there are no tasks
      (the component renders nothing). */
  function Steps(tasks: seq<Task>, activeTaskId: Option<nat>, progress: ProgressMap): (r: Option<seq<Step>>)
    ensures r.None? <==> tasks == []
    ensures r.Some? ==> |r.value| == |tasks|
    ensures r.Some? ==> forall i :: 0 <= i < |tasks| ==>
              r.value[i].id == tasks[i].id
              && (r.value[i].locked <==> Locked(tasks, i, progress))
              && (r.value[i].completed <==> IsCompleted(progress, tasks[i].id))
              && (r.value[i].current <==> activeTaskId == Some(tasks[i].id))
  {
    if tasks == [] then None
    else Some(seq(|tasks|, i requires 0 <= i < |tasks| =>
                  Step(tasks[i].id, Locked(tasks, i, progress), IsCompleted(progress, tasks[i].id),
                       activeTaskId == Some(tasks[i].id))))
  }

  /** The first task and optional tasks are never locked. */
  lemma FirstAndOptionalOpen(tasks: seq<Task>, activeTaskId: Option<nat>, progress: ProgressMap, i: nat)
    requires i < |tasks| && (i == 0 || !tasks[i].isRequired)
    ensures !Steps(tasks, activeTaskId, progress).value[i].locked
  {
  }

  /** Recording any status on a task unlocks the one after it. */
  lemma ProgressUnlocksNext(tasks: seq<Task>, activeTaskId: Option<nat>, progress: ProgressMap,
                            i: nat, status: string)
    requires 0 < i < |tasks| && status != ""
    ensures !Steps(tasks, activeTaskId, progress[tasks[i - 1].id := Some(status)]).value[i].locked
  {
  }

  /** A completed task never locks the next one. */
  lemma CompletedNeverBlocks(tasks: seq<Task>, activeTaskId: Option<nat>, progress: ProgressMap, i: nat)
    requires 0 < i < |tasks| && IsCompleted(progress, tasks[i - 1].id)
    ensures !Steps(tasks, activeTaskId, progress).value[i].locked
  {
  }

  /** The click handler `() => !locked && onSelect?.(task.id)`: the id
      handed to `onSelect`, None when nothing is called. */
  function Click(step: Step, hasOnSelect: bool): (selected: Option<nat>)
    ensures selected.Some? <==> !step.locked && hasOnSelect
    ensures selected.Some? ==> selected.value == step.id
  {
    if !step.locked && hasOnSelect then Some(step.id) else None
  }

  /** Clicking a locked step never selects anything, whichever task it is. */
  lemma LockedStepIgnoresClicks(tasks: seq<Task>, activeTaskId: Option<nat>, progress: ProgressMap,
                                i: nat, hasOnSelect: bool)
    requires i < |tasks| && Locked(tasks, i, progress)
    ensures Click(Steps(tasks, activeTaskId, progress).value[i], hasOnSelect).None?
  {
  }
}
