/** One turn of foreground work (v2/projection.go): it starts at the first state update that
    is not idle and ends at the next idle one, and nothing after that changes its result. */
module ActiveWork {
  import opened Options
  import opened GoSlices
  import opened Updates
  import opened UpdateProjection

  datatype Result<+C> = Result(text: string, stopReason: Option<string>, failure: Option<string>, background: Option<C>)

  const NO_RESULT: Result<seq<Item>> := Result("", None, None, None)

  /** The work as a value: closes counts how often its done channel was closed. */
  datatype Work = Work(active: bool, completed: bool, closes: nat, view: View, result: Result<seq<Item>>, background: Option<seq<Item>>)

  const NO_WORK := Work(false, false, 0, NO_VIEW, NO_RESULT, None)

  /** The failure counts only beside the stop reason error. */
  function Failure(stopReason: Option<string>, failure: Option<string>): Option<string> {
    if stopReason == Some("error") then failure else None
  }

  function Listed<C>(p: Patch<C>): Option<C> { if p.Put? then Some(p.value) else None }

  /** Apply, on values. */
  function Advance(decode: Decoder, w: Work, u: Update<seq<Item>>): Work {
    if w.completed then w
    else if !w.active then
      if u.State? && !u.idle then w.(active := true, background := Listed(u.background)) else w
    else if u.State? && u.idle then
      w.(completed := true, closes := w.closes + 1, background := Listed(u.background),
         result := Result(TextOf(w.view), u.stopReason, Failure(u.stopReason, u.failure), Listed(u.background)))
    else
      w.(background := if u.State? then Listed(u.background) else w.background,
         view := if AgentText(u) then Applied(decode, w.view, u) else w.view)
  }

  function Observed(decode: Decoder, us: seq<Update<seq<Item>>>): Work {
    if us == [] then NO_WORK else Advance(decode, Observed(decode, us[..|us| - 1]), us[|us| - 1])
  }

  // ---- what it amounts to ----

  /** Update i is the first state update that is not idle. */
  ghost predicate Starts(us: seq<Update<seq<Item>>>, i: nat) {
    i < |us| && us[i].State? && !us[i].idle && forall k :: 0 <= k < i ==> !(us[k].State? && !us[k].idle)
  }

  /** Update j is the first idle one after i. */
  ghost predicate Ends(us: seq<Update<seq<Item>>>, i: nat, j: nat) {
    i < j < |us| && us[j].State? && us[j].idle && forall k :: i < k < j ==> !(us[k].State? && us[k].idle)
  }

  /** The result of the work from i to j: the text of the updates between them, and what the
      idle update says. */
  function ResultOf(decode: Decoder, us: seq<Update<seq<Item>>>, i: nat, j: nat): Result<seq<Item>>
    requires i < j < |us| && us[j].State?
  {
    Result(TextOf(Fold(decode, false, NO_VIEW, us[i + 1..j])), us[j].stopReason,
           if us[j].stopReason == Some("error") then us[j].failure else None,
           match us[j].background { case Put(list) => Some(list) case _ => None })
  }

  lemma {:induction false} NotStarted(decode: Decoder, us: seq<Update<seq<Item>>>)
    requires forall k :: 0 <= k < |us| ==> !(us[k].State? && !us[k].idle)
    ensures Observed(decode, us) == NO_WORK
  {
    if us != [] { NotStarted(decode, us[..|us| - 1]); }
  }

  /** Between start and end the projection holds the updates since the start. */
  lemma {:induction false} Running(decode: Decoder, us: seq<Update<seq<Item>>>, i: nat)
    requires Starts(us, i) && forall k :: i < k < |us| ==> !(us[k].State? && us[k].idle)
    ensures var w := Observed(decode, us);
      w.active && !w.completed && w.closes == 0 && w.result == NO_RESULT && w.view == Fold(decode, true, NO_VIEW, us[i + 1..])
  {
    hide Applied, AgentText;
    var n := |us| - 1;
    var before := us[..n];
    if i == n {
      NotStarted(decode, before);
      assert us[i + 1..] == [];
    } else {
      assert Starts(before, i);
      Running(decode, before, i);
      assert us[i + 1..][..n - i - 1] == before[i + 1..];
      StateIsNoText(us[n]);
    }
  }

  lemma StateIsNoText(u: Update<seq<Item>>)
    ensures u.State? ==> !AgentText(u)
  {}

  lemma {:induction false} Completed(decode: Decoder, us: seq<Update<seq<Item>>>, i: nat, j: nat)
    requires Starts(us, i) && Ends(us, i, j)
    ensures var w := Observed(decode, us); w.completed && w.closes == 1 && w.result == ResultOf(decode, us, i, j)
    decreases |us|
  {
    hide Fold, TextOf;
    var n := |us| - 1;
    var before := us[..n];
    assert Starts(before, i);
    if j == n {
      Running(decode, before, i);
      assert before[i + 1..] == us[i + 1..j];
      TextAgrees(decode, us[i + 1..j]);
    } else {
      assert Ends(before, i, j);
      Completed(decode, before, i, j);
      assert before[i + 1..j] == us[i + 1..j];
    }
  }

  /** On every list of updates: the work completes exactly at the first idle update after the
      first that is not idle; its done channel is closed once, its text is the full
      projection's text of the updates strictly between them, and whatever follows, the
      result stays. Before that it has the text so far and no stop reason. */
  lemma WorkIsItsSpec(decode: Decoder, us: seq<Update<seq<Item>>>)
    ensures var w := Observed(decode, us);
      && (w.completed <==> exists i, j :: Starts(us, i) && Ends(us, i, j))
      && w.closes == (if w.completed then 1 else 0)
      && (forall i, j :: Starts(us, i) && Ends(us, i, j) ==> w.result == ResultOf(decode, us, i, j))
      && (forall i :: Starts(us, i) && !w.completed ==> TextOf(w.view) == TextOf(Fold(decode, false, NO_VIEW, us[i + 1..])))
      && ((forall i :: !Starts(us, i)) ==> w == NO_WORK)
  {
    hide Advance, Fold, TextOf;
    forall i, j | Starts(us, i) && Ends(us, i, j)
      ensures Observed(decode, us).completed && Observed(decode, us).closes == 1
           && Observed(decode, us).result == ResultOf(decode, us, i, j)
    {
      Completed(decode, us, i, j);
    }
    if i: nat :| Starts(us, i) {
      if k :| i < k < |us| && us[k].State? && us[k].idle {
        FirstIdle(us, i, k);
      } else {
        Running(decode, us, i);
        TextAgrees(decode, us[i + 1..]);
        forall i' | Starts(us, i') ensures i' == i {}
      }
    } else {
      if k :| 0 <= k < |us| && us[k].State? && !us[k].idle { FirstActive(us, k); }
      NotStarted(decode, us);
    }
  }

  /** Update j is the last state update the work observed: from its start to its end. */
  ghost predicate LastObserved(us: seq<Update<seq<Item>>>, i: nat, j: nat) {
    && i <= j < |us| && us[j].State? && (forall k :: i < k < j ==> !(us[k].State? && us[k].idle))
    && (Ends(us, i, j) || forall k :: j < k < |us| ==> !us[k].State?)
  }

  /** The background work shown is what the last state update observed reports. */
  lemma {:induction false} BackgroundIsLatest(decode: Decoder, us: seq<Update<seq<Item>>>, i: nat, j: nat)
    requires Starts(us, i) && LastObserved(us, i, j)
    ensures Observed(decode, us).background == match us[j].background { case Put(list) => Some(list) case _ => None }
    decreases |us|
  {
    hide Fold, TextOf, Applied;
    var n := |us| - 1;
    var before := us[..n];
    if j == n {
      if i == n { NotStarted(decode, before); } else { Running(decode, before, i); }
    } else {
      assert Starts(before, i);
      if Ends(us, i, j) {
        assert Ends(before, i, j);
        Completed(decode, before, i, j);
      } else {
        Running(decode, before, i);
      }
      assert LastObserved(before, i, j);
      BackgroundIsLatest(decode, before, i, j);
    }
  }

  lemma {:induction false} FirstIdle(us: seq<Update<seq<Item>>>, i: nat, k: nat)
    requires i < k < |us| && us[k].State? && us[k].idle
    ensures exists j :: Ends(us, i, j)
    decreases k
  {
    if m :| i < m < k && us[m].State? && us[m].idle { FirstIdle(us, i, m); } else { assert Ends(us, i, k); }
  }

  lemma {:induction false} FirstActive(us: seq<Update<seq<Item>>>, k: nat)
    requires k < |us| && us[k].State? && !us[k].idle
    ensures exists i :: Starts(us, i)
    decreases k
  {
    if m :| 0 <= m < k && us[m].State? && !us[m].idle { FirstActive(us, m); } else { assert Starts(us, k); }
  }

  // ---- the object ----

  class ActiveWork {
    var observedActive: bool
    var completed: bool
    const projection: Projection
    var result: Result<Slice>
    var background: Option<Slice>
    /** How often done was closed. */
    ghost var closes: nat

    ghost predicate Valid()
      reads this, projection
    {
      && projection.Valid() && projection.agentTextOnly
      && (background.Some? ==> background.value in projection.exposed && Wf(background.value))
      && (result.background.Some? ==> result.background.value in projection.exposed && Wf(result.background.value))
      && closes == (if completed then 1 else 0)
    }

    ghost function Abs(): Work
      requires Valid()
      reads this, projection, projection.arrays, OptionArrays(background), OptionArrays(result.background)
    {
      Work(observedActive, completed, closes, projection.Abs(),
           Result(result.text, result.stopReason, result.failure, ReadOption(result.background)), ReadOption(background))
    }

    constructor (decode: Decoder)
      ensures Valid() && Abs() == NO_WORK && fresh(projection) && projection.decode == decode
      ensures projection.own == {} && projection.exposed == {} && projection.arrays == {}
    {
      observedActive, completed, background, closes := false, false, None, 0;
      result := Result("", None, None, None);
      projection := new Projection(true, decode);
    }

    /** observeBackground: the list a state update reports, clipped, or none. */
    method ObserveBackground(p: Patch<Slice>)
      requires Valid() && (p.Put? ==> Given(p.value, projection.exposed, projection.own))
      modifies this`background, projection`arrays, projection`exposed
      ensures Valid() && projection.Isolated() && projection.own == old(projection.own) && projection.Abs() == old(projection.Abs())
      ensures (p.Put? ==> Wf(p.value)) && ReadOption(background) == Listed(Read(p))
      ensures ReadOption(result.background) == old(ReadOption(result.background))
    {
      background := None;
      if p.Put? {
        GivenWf(p.value, projection.exposed, projection.own);
        projection.TakeSlice(Clip(p.value));
        background := Some(Clip(p.value));
      }
    }

    /** Apply. */
    method Apply(u: Update<Slice>)
      requires Valid() && projection.GivenIn(u)
      modifies this, projection, projection.own
      ensures Valid() && projection.Isolated() && WfIn(u)
      ensures Plain(u) == old(Plain(u))
      ensures Abs() == Advance(projection.decode, old(Abs()), Plain(u))
    {
      hide Projection.Valid, Projection.Abs, Elements, Reach, TextOf, Applied, Given, Wf;
      projection.GivenInWf(u);
      if completed {
        return;
      }
      if !observedActive {
        if u.State? && !u.idle {
          observedActive := true;
          ObserveBackground(u.background);
        }
        return;
      }
      if u.State? {
        ObserveBackground(u.background);
        if u.idle {
          Complete(u.stopReason, u.failure);
        }
      } else {
        Follow(u);
      }
    }

    /** An update during the work goes to the projection; a state update is none it stores. */
    method Follow(u: Update<Slice>)
      requires Valid() && observedActive && !completed && !u.State? && projection.GivenIn(u)
      modifies projection, projection.own
      ensures Valid() && projection.Isolated()
      ensures WfIn(u) && Plain(u) == old(Plain(u)) && Abs() == Advance(projection.decode, old(Abs()), Plain(u))
    {
      hide Projection.Valid, Projection.Abs, Elements, Reach, TextOf, Applied, Given, Wf;
      projection.Apply(u);
    }

    /** The result is fixed, and done is closed. */
    method Complete(stopReason: Option<string>, failure: Option<string>)
      requires Valid() && !completed
      modifies this
      ensures Valid() && projection.Isolated()
      ensures Abs() == old(Abs()).(completed := true, closes := 1,
        result := Result(TextOf(old(Abs()).view), stopReason, Failure(stopReason, failure), old(Abs()).background))
    {
      var text := projection.Text();
      result := Result(text, stopReason, if stopReason == Some("error") then failure else None, background);
      completed := true;
      closes := closes + 1;
    }

    /** Result: before completion, the text so far. */
    method CurrentResult() returns (r: Result<Slice>)
      requires Valid()
      ensures r.background.Some? ==> Wf(r.background.value) && r.background.value in projection.exposed
      ensures Result(r.text, r.stopReason, r.failure, ReadOption(r.background)) ==
        if completed then Abs().result else Result(TextOf(Abs().view), None, None, None)
    {
      if completed {
        return result;
      }
      var text := projection.Text();
      return Result(text, None, None, None);
    }
  }

  function OptionArrays(o: Option<Slice>): set<array<Item>> { if o.Some? then Array(o.value) else {} }

  ghost function ReadOption(o: Option<Slice>): Option<seq<Item>>
    requires o.Some? ==> Wf(o.value)
    reads OptionArrays(o)
  {
    if o.Some? then Some(Elements(o.value)) else None
  }
}
