/** The bookkeeping of `update_info`: the gate on the backup's status, the overall status
    computed from the status of each step, and the scene counters of the backup info file. */
module UpdateInfo {
  import opened Wrappers
  import opened Exceptions
  import opened ChannelList

  // ---------------------------------------------------------------------------------------------
  // check_base_status

  /** `check_base_status()` of `update_info` on the `status` field of the backup info file (None
      when the file cannot be read or has no `status`). Nothing is written. */
  function CheckBaseStatus(status: Option<string>): (r: Result<(), Error>)
    ensures r.Success? <==> status.Some? && status.value != "running" && status.value != "failed"
    ensures r == Failure(AlreadyRunningError) <==> status == Some("running")
    ensures r == Failure(DataNotReadyError) <==> status == Some("failed")
    ensures r == Failure(UpdateInfoError) <==> status.None?
  {
    match status
    case None => Failure(UpdateInfoError)
    case Some(s) =>
      if s == "running" then Failure(AlreadyRunningError)
      else if s == "failed" then Failure(DataNotReadyError)
      else Success(())
  }

  // ---------------------------------------------------------------------------------------------
  // check_overall_status

  predicate AllSucceeded(steps: map<string, string>) {
    forall k :: k in steps ==> steps[k] == "success"
  }

  predicate AnyFailed(steps: map<string, string>) {
    exists k :: k in steps && steps[k] == "failed"
  }

  /** The overall status the steps give: "success" when every step succeeded (also when there are
      no steps), otherwise "failed" when some step failed, otherwise "pending". */
  function OverallStatus(steps: map<string, string>): (r: string)
    ensures r == "success" || r == "failed" || r == "pending"
    ensures r == "success" <==> AllSucceeded(steps)
    ensures r == "failed" <==> AnyFailed(steps)
    ensures r == "pending" <==> !AllSucceeded(steps) && !AnyFailed(steps)
  {
    if AllSucceeded(steps) then "success"
    else if AnyFailed(steps) then "failed"
    else "pending"
  }

  /** A backup with no steps recorded counts as a success. */
  lemma NoStepsIsSuccess()
    ensures OverallStatus(map[]) == "success"
  {
  }

  /** One failed step makes the whole backup failed, whatever the other steps say. */
  lemma {:induction false} FailedStepDominates(steps: map<string, string>, step: string)
    ensures OverallStatus(steps[step := "failed"]) == "failed"
  {
    var s := steps[step := "failed"];
    assert step in s && s[step] == "failed";
  }

  /** A step that succeeds never turns a successful backup into a pending or failed one, and
      never turns a pending one into a failed one. */
  lemma {:induction false} SucceedingStepNeverWorsens(steps: map<string, string>, step: string)
    ensures OverallStatus(steps) == "success" ==> OverallStatus(steps[step := "success"]) == "success"
    ensures OverallStatus(steps) == "pending" ==> OverallStatus(steps[step := "success"]) != "failed"
  {
    var s := steps[step := "success"];
    if AllSucceeded(steps) {
      forall k | k in s
        ensures s[k] == "success"
      {
        if k != step {
          assert k in steps;
        }
      }
    }
    if !AnyFailed(steps) {
      forall k | k in s
        ensures s[k] != "failed"
      {
        if k != step {
          assert k in steps;
        }
      }
    }
  }

  /** A step still running keeps the backup pending as long as no other step failed. */
  lemma {:induction false} RunningStepIsPending(steps: map<string, string>, step: string)
    requires !AnyFailed(steps - {step})
    ensures OverallStatus(steps[step := "running"]) == "pending"
  {
    var s := steps[step := "running"];
    assert step in s && s[step] != "success";
    forall k | k in s
      ensures s[k] != "failed"
    {
      if k != step {
        assert k in steps - {step};
      }
    }
  }

  // ---------------------------------------------------------------------------------------------
  // count_scenes_in_category

  /** The number of scenes in a scenes list read from disk; None stands for a file that is
      missing or cannot be read, which counts as no scenes. */
  function SceneCount(scenes: Option<nat>): (n: nat)
    ensures scenes.None? ==> n == 0
    ensures scenes.Some? ==> n == scenes.value
  {
    if scenes.Some? then scenes.value else 0
  }

  /** The categories with `numberOfScenes` set to `n` on every entry named `name`. */
  function WithSceneCount(cats: seq<Category>, name: string, n: int): (r: seq<Category>)
    ensures |r| == |cats|
    ensures forall i :: 0 <= i < |cats| && cats[i].category == name ==> r[i] == cats[i].(numberOfScenes := n)
    ensures forall i :: 0 <= i < |cats| && cats[i].category != name ==> r[i] == cats[i]
  {
    seq(|cats|, i requires 0 <= i < |cats| =>
      if cats[i].category == name then cats[i].(numberOfScenes := n) else cats[i])
  }

  /** Setting the count twice is setting it once, and the categories keep their names. */
  lemma {:induction false} WithSceneCountIdempotent(cats: seq<Category>, name: string, n: int)
    ensures WithSceneCount(WithSceneCount(cats, name, n), name, n) == WithSceneCount(cats, name, n)
    ensures forall i :: 0 <= i < |cats| ==> WithSceneCount(cats, name, n)[i].category == cats[i].category
  {
    var once := WithSceneCount(cats, name, n);
    var twice := WithSceneCount(once, name, n);
    assert forall i :: 0 <= i < |cats| ==> once[i].category == cats[i].category;
    assert forall i :: 0 <= i < |cats| ==> twice[i] == once[i];
  }

  /** The backup info file's fields that `update_info` reads and writes. Each operation loads the
      file, changes it and saves it; the object stands for the file between those. */
  class BackupInfo {
    var status: string
    var steps: map<string, string>
    var numberOfScenes: int
    var categories: seq<Category>

    constructor (status: string, steps: map<string, string>, numberOfScenes: int, categories: seq<Category>)
      ensures this.status == status && this.steps == steps
      ensures this.numberOfScenes == numberOfScenes && this.categories == categories
    {
      this.status := status;
      this.steps := steps;
      this.numberOfScenes := numberOfScenes;
      this.categories := categories;
    }

    /** `check_overall_status()`: the status becomes the one the steps give; nothing else
        changes. */
    method CheckOverallStatus()
      modifies this
      ensures status == OverallStatus(steps)
      ensures steps == old(steps) && numberOfScenes == old(numberOfScenes) && categories == old(categories)
    {
      if forall k :: k in steps ==> steps[k] == "success" {
        status := "success";
      } else if exists k :: k in steps && steps[k] == "failed" {
        status := "failed";
      } else {
        status := "pending";
      }
    }

    /** `count_scenes_in_category(category)`: `scenes` is the length of the scenes list read from
        the category's folder (or the server folder when no category is given), None when that
        file is missing or unreadable. With a category, every entry with its name gets the count;
        without one, the top-level count is set. */
    method CountScenesInCategory(category: Option<Category>, scenes: Option<nat>)
      modifies this
      ensures category.Some? ==> categories == WithSceneCount(old(categories), category.value.category, SceneCount(scenes))
      ensures category.Some? ==> numberOfScenes == old(numberOfScenes)
      ensures category.None? ==> numberOfScenes == SceneCount(scenes) && categories == old(categories)
      ensures status == old(status) && steps == old(steps)
    {
      var n := if scenes.Some? then scenes.value else 0;
      if category.Some? {
        var name := category.value.category;
        var cats := categories;
        for i := 0 to |cats|
          invariant status == old(status) && steps == old(steps) && numberOfScenes == old(numberOfScenes)
          invariant |categories| == |cats|
          invariant forall j :: 0 <= j < i ==> categories[j] == WithSceneCount(cats, name, n)[j]
          invariant forall j :: i <= j < |cats| ==> categories[j] == cats[j]
        {
          if categories[i].category == name {
            categories := categories[i := categories[i].(numberOfScenes := n)];
          }
        }
        assert categories == WithSceneCount(cats, name, n);
      } else {
        numberOfScenes := n;
      }
    }
  }
}
