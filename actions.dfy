/** What the modelled code does to the outside world, in the order it does it:
    the file-system calls it makes and the external programs it runs. */
module Actions {
  import opened Outcomes

  datatype Action =
    | MakeDir(path: string)                 // `Path.mkdir`
    | Move(src: string, dst: string)        // `os.rename`
    | Copy(src: string, dst: string)        // `shutil.copy`, `shutil.copyfile`
    | Unlink(path: string)                  // `Path.unlink`
    | Execute(argv: seq<string>)            // `subprocess.run`

  /** One step of a batch loop: the actions it took and what it returned. */
  type Step = (seq<Action>, Result<bool>)

  /** The batch loops of the drivers, `for x in xs: if not step(x): raise
      RuntimeError(...)` followed by `return True`: the steps run in order, an
      exception stops the loop and propagates, a False result stops it with
      RuntimeError. */
  function Sequenced(steps: seq<Step>): (seq<Action>, Result<bool>)
  {
    if |steps| == 0 then ([], Ok(true))
    else if steps[0].1.Raise? then steps[0]
    else if !steps[0].1.value then (steps[0].0, Raise(RuntimeError))
    else
      var rest := Sequenced(steps[1..]);
      (steps[0].0 + rest.0, rest.1)
  }

  /** The actions of all the steps, in order. */
  function AllActions(steps: seq<Step>): seq<Action>
  {
    if |steps| == 0 then [] else steps[0].0 + AllActions(steps[1..])
  }

  /** The outcome of `step` on each item, in order. */
  function MapSteps<T, U>(xs: seq<T>, step: T -> U): (steps: seq<U>)
    ensures |steps| == |xs|
  {
    if |xs| == 0 then [] else MapSteps(xs[..|xs| - 1], step) + [step(xs[|xs| - 1])]
  }

  lemma {:induction false} MapStepsAt<T, U>(xs: seq<T>, step: T -> U, k: nat)
    requires k < |xs|
    ensures MapSteps(xs, step)[k] == step(xs[k])
  {
    var init := xs[..|xs| - 1];
    if k < |init| {
      MapStepsAt(init, step, k);
    }
  }

  /** A batch succeeds, with True and every step's actions, exactly when every
      step returns True. */
  lemma {:induction false} SequencedOk(steps: seq<Step>)
    ensures var r := Sequenced(steps);
      && (r.1.Ok? <==> forall k :: 0 <= k < |steps| ==> steps[k].1 == Ok(true))
      && (r.1.Ok? ==> r.1.value && r.0 == AllActions(steps))
  {
    if |steps| > 0 {
      SequencedOk(steps[1..]);
      assert forall k :: 1 <= k < |steps| ==> steps[k] == steps[1..][k - 1];
    }
  }

  /** A failed batch stops at the first step that raises or returns False: the
      actions are those of the steps up to and including it, and the error is
      its exception, or RuntimeError for a False. */
  lemma {:induction false} SequencedStops(steps: seq<Step>)
    ensures var r := Sequenced(steps);
      r.1.Raise? ==>
        exists k :: 0 <= k < |steps|
          && (forall j :: 0 <= j < k ==> steps[j].1 == Ok(true))
          && (steps[k].1 == Raise(r.1.error) || (steps[k].1 == Ok(false) && r.1.error == RuntimeError))
          && r.0 == AllActions(steps[..k + 1])
  {
    var r := Sequenced(steps);
    if |steps| > 0 && r.1.Raise? {
      if steps[0].1.Raise? || !steps[0].1.value {
        assert steps[..1][1..] == [];
        assert AllActions(steps[..1]) == steps[0].0 + [];
      } else {
        var tail := steps[1..];
        SequencedStops(tail);
        var k :| 0 <= k < |tail|
          && (forall j :: 0 <= j < k ==> tail[j].1 == Ok(true))
          && (tail[k].1 == Raise(r.1.error) || (tail[k].1 == Ok(false) && r.1.error == RuntimeError))
          && Sequenced(tail).0 == AllActions(tail[..k + 1]);
        SequencedStopsCons(steps, k);
      }
    }
  }

  /** A step returning True in front of a batch shifts the step where it stops by
      one and adds its actions in front. */
  lemma SequencedStopsCons(steps: seq<Step>, k: nat)
    requires 0 <= k < |steps| - 1 && steps[0].1 == Ok(true)
    requires forall j :: 0 <= j < k ==> steps[1..][j].1 == Ok(true)
    ensures forall j :: 0 <= j < k + 1 ==> steps[j].1 == Ok(true)
    ensures steps[k + 1] == steps[1..][k]
    ensures Sequenced(steps) == (steps[0].0 + Sequenced(steps[1..]).0, Sequenced(steps[1..]).1)
    ensures AllActions(steps[..k + 2]) == steps[0].0 + AllActions(steps[1..][..k + 1])
  {
    assert steps[..k + 2][1..] == steps[1..][..k + 1];
    forall j | 0 < j < k + 1
      ensures steps[j].1 == Ok(true)
    {
      assert steps[j] == steps[1..][j - 1];
    }
  }
}
