/** The cancellation registries (v2/permissions.go; connection.go has the same one for inbound
    requests): lists of cancel functions by key, each under its own generation. The mutex
    makes every operation one step, so interleavings are runs of steps. */
module Registry {

  type Key = string

  /** A registered cancel function, by name, and the generation it was registered under. */
  datatype Entry = Entry(cancel: nat, generation: nat)

  datatype State = State(sequence: nat, lists: map<Key, seq<Entry>>)

  const EMPTY := State(0, map[])

  function List(s: State, k: Key): seq<Entry> { if k in s.lists then s.lists[k] else [] }

  /** The list without its first entry of the generation. */
  function Remove(list: seq<Entry>, generation: nat): seq<Entry> {
    if list == [] then []
    else if list[0].generation == generation then list[1..]
    else [list[0]] + Remove(list[1..], generation)
  }

  function WithList(s: State, k: Key, list: seq<Entry>): State {
    s.(lists := if list == [] then s.lists - {k} else s.lists[k := list])
  }

  datatype Event = Register(key: Key, cancel: nat) | Unregister(key: Key, generation: nat) | CancelAll(key: Key)

  function Step(s: State, e: Event): State {
    match e
    case Register(k, cancel) => State(s.sequence + 1, s.lists[k := List(s, k) + [Entry(cancel, s.sequence + 1)]])
    case Unregister(k, generation) => WithList(s, k, Remove(List(s, k), generation))
    case CancelAll(k) => WithList(s, k, [])
  }

  function Exec(run: seq<Event>): State {
    if run == [] then EMPTY else Step(Exec(run[..|run| - 1]), run[|run| - 1])
  }

  // ---- which registrations are live ----

  function Registrations(run: seq<Event>): nat {
    if run == [] then 0 else Registrations(run[..|run| - 1]) + if run[|run| - 1].Register? then 1 else 0
  }

  /** The generation the i-th event registers under. */
  function Generation(run: seq<Event>, i: nat): nat
    requires i < |run|
  {
    Registrations(run[..i]) + 1
  }

  /** e ends registrations of the key under the generation. */
  predicate Ends(e: Event, k: Key, generation: nat) { e == CancelAll(k) || e == Unregister(k, generation) }

  /** The i-th event registered under k, and nothing after it ended that. */
  ghost predicate Live(run: seq<Event>, k: Key, i: nat)
    requires i < |run|
  {
    run[i].Register? && run[i].key == k && forall j :: i < j < |run| ==> !Ends(run[j], k, Generation(run, i))
  }

  /** The live registrations under k among the first n events, in order. */
  ghost function LiveList(run: seq<Event>, k: Key, n: nat): seq<Entry>
    requires n <= |run|
  {
    if n == 0 then []
    else LiveList(run, k, n - 1) + if Live(run, k, n - 1) then [Entry(run[n - 1].cancel, Generation(run, n - 1))] else []
  }

  lemma SnocGeneration(run: seq<Event>, e: Event, i: nat)
    requires i < |run|
    ensures Generation(run + [e], i) == Generation(run, i)
  {
    assert (run + [e])[..i] == run[..i];
  }

  /** One more event: earlier registrations stay live unless it ends them. */
  lemma SnocLive(run: seq<Event>, e: Event, k: Key, i: nat)
    requires i < |run|
    ensures Live(run + [e], k, i) <==> Live(run, k, i) && !Ends(e, k, Generation(run, i))
  {
    var more := run + [e];
    SnocGeneration(run, e, i);
    if Live(run, k, i) && !Ends(e, k, Generation(run, i)) {
      forall j | i < j < |more| ensures !Ends(more[j], k, Generation(more, i)) { assert j < |run| ==> more[j] == run[j]; }
    }
    if Live(more, k, i) {
      forall j | i < j < |run| ensures !Ends(run[j], k, Generation(run, i)) { assert more[j] == run[j]; }
      assert more[|run|] == e;
    }
  }

  lemma {:induction false} SameList(run: seq<Event>, e: Event, k: Key, n: nat)
    requires n <= |run| && !(e.CancelAll? && e.key == k) && !(e.Unregister? && e.key == k)
    ensures LiveList(run + [e], k, n) == LiveList(run, k, n)
  {
    if n > 0 {
      SameList(run, e, k, n - 1);
      SnocLive(run, e, k, n - 1);
      SnocGeneration(run, e, n - 1);
    }
  }

  lemma {:induction false} NoneLive(run: seq<Event>, k: Key, n: nat)
    requires n <= |run|
    ensures LiveList(run + [CancelAll(k)], k, n) == []
  {
    if n > 0 {
      NoneLive(run, k, n - 1);
      SnocLive(run, CancelAll(k), k, n - 1);
    }
  }

  /** Generations in a live list are those registered before, so a later one is new. */
  lemma {:induction false} ListBelow(run: seq<Event>, k: Key, n: nat, g: nat)
    requires n <= |run| && Registrations(run[..n]) < g
    ensures forall x :: x in LiveList(run, k, n) ==> x.generation < g
  {
    if n > 0 {
      assert run[..n][..n - 1] == run[..n - 1];
      ListBelow(run, k, n - 1, g);
    }
  }

  lemma {:induction false} RemoveAbsent(list: seq<Entry>, g: nat)
    requires forall x :: x in list ==> x.generation != g
    ensures Remove(list, g) == list
  {
    if list != [] { RemoveAbsent(list[1..], g); }
  }

  lemma {:induction false} RemoveSnoc(list: seq<Entry>, x: Entry, g: nat)
    requires (forall y :: y in list ==> y.generation != x.generation)
    ensures Remove(list + [x], g) == if x.generation == g then list else Remove(list, g) + [x]
  {
    if list == [] {
      assert [x][1..] == [];
    } else {
      RemoveSnoc(list[1..], x, g);
      assert (list + [x])[1..] == list[1..] + [x];
      if list[0].generation != g { assert list == [list[0]] + list[1..]; }
    }
  }

  /** Unregistering takes out exactly the registration of its generation. */
  lemma {:induction false} OneLess(run: seq<Event>, k: Key, g: nat, n: nat)
    requires n <= |run|
    ensures LiveList(run + [Unregister(k, g)], k, n) == Remove(LiveList(run, k, n), g)
  {
    if n > 0 {
      var e := Unregister(k, g);
      OneLess(run, k, g, n - 1);
      SnocLive(run, e, k, n - 1);
      SnocGeneration(run, e, n - 1);
      hide Live, Remove, Generation;
      assert e.Unregister? && Ends(e, k, Generation(run, n - 1)) == (g == Generation(run, n - 1));
      var list := LiveList(run, k, n - 1);
      assert list + [] == list && Remove(list, g) + [] == Remove(list, g);
      if Live(run, k, n - 1) {
        var x := Entry(run[n - 1].cancel, Generation(run, n - 1));
        ListBelow(run, k, n - 1, x.generation);
        RemoveSnoc(list, x, g);
        if x.generation == g { RemoveAbsent(list, g); }
      }
    }
  }

  lemma {:induction false} SequenceCounts(run: seq<Event>)
    ensures Exec(run).sequence == Registrations(run)
  {
    if run != [] { SequenceCounts(run[..|run| - 1]); }
  }

  /** In every run: each list holds exactly the live registrations of its key, in order, and a
      key is kept only while its list is not empty. An unregistration meant for an earlier
      generation never removes a later one, whatever was cancelled in between. */
  lemma {:induction false} ListsAreLive(run: seq<Event>, k: Key)
    ensures List(Exec(run), k) == LiveList(run, k, |run|)
    ensures k in Exec(run).lists <==> LiveList(run, k, |run|) != []
  {
    if run != [] {
      var n := |run| - 1;
      var before, e := run[..n], run[n];
      assert run == before + [e];
      ListsAreLive(before, k);
      SequenceCounts(before);
      assert run[..n] == before;
      if e.key != k || e.Register? { SameList(before, e, k, n); }
      else if e.CancelAll? { NoneLive(before, k, n); }
      else { OneLess(before, k, e.generation, n); }
    }
  }

  /** Generations in a list increase, so they are distinct. */
  lemma {:induction false} Increasing(run: seq<Event>, k: Key, n: nat)
    requires n <= |run|
    ensures forall i, j :: 0 <= i < j < |LiveList(run, k, n)| ==> LiveList(run, k, n)[i].generation < LiveList(run, k, n)[j].generation
  {
    if n > 0 {
      Increasing(run, k, n - 1);
      ListBelow(run, k, n - 1, Generation(run, n - 1));
    }
  }
}
