/**
 * The dataset bookkeeping of the benchmark driver, on values: the three
 * module-level counters (numAvails, numWorkersWithAvails, randomWorkerIds)
 * together with an abstract in-memory store holding the worker collection
 * (a map from worker id to its document) and the availability collection
 * (the availability documents in insertion order).
 *
 * The store hands out ids from a counter: a bulk insert of n documents gives
 * them the ids nextId, ..., nextId + n - 1, in order. This stands for the
 * store's ObjectIds, which are unique and returned in insertion order.
 *
 * Class TestRun (module Test) performs the same steps imperatively; its
 * methods are proved against the functions here, and the lemmas here state
 * what the bookkeeping guarantees.
 */
module Dataset {
  import opened Utils
  import opened Records

  /** A stored worker: its generated fields and its availabilities array. */
  datatype WorkerDoc = WorkerDoc(data: WorkerData, availabilities: seq<Id>)

  /** A stored availability: its id, the back-reference to its worker, and
      its generated fields. */
  datatype Availability = Availability(id: Id, worker: Id, data: AvailabilityData)

  /** The module-level counters and the contents of both collections. */
  datatype State = State(
    numAvails: int,
    numWorkersWithAvails: int,
    randomWorkerIds: seq<Id>,
    workers: map<Id, WorkerDoc>,
    avails: seq<Availability>,
    nextId: Id)

  /** What one iteration of the selection loop did for its worker: nothing,
      or give it `num` availabilities generated as `availsData`. */
  datatype Pick = Skip | Give(num: int, availsData: seq<AvailabilityData>)

  predicate Distinct<T(==)>(s: seq<T>)
  {
    forall i, j :: 0 <= i < j < |s| ==> s[i] != s[j]
  }

  /** The ids a bulk insert of n documents receives. */
  function FreshIds(next: Id, n: nat): (ids: seq<Id>)
    ensures |ids| == n
    ensures forall k :: 0 <= k < n ==> ids[k] == next + k
  {
    if n == 0 then [] else FreshIds(next, n - 1) + [next + n - 1]
  }

  /** The ids of the availabilities whose back-reference is w, in insertion
      order: what a query on the `worker` field returns. */
  function ChildIds(avails: seq<Availability>, w: Id): seq<Id>
  {
    if avails == [] then []
    else
      var last := avails[|avails| - 1];
      ChildIds(avails[..|avails| - 1], w) + (if last.worker == w then [last.id] else [])
  }

  /** Every stored id is below the next fresh id, so the store never hands
      out an id that is already taken (ObjectIds are unique). */
  predicate IdsBelowNext(st: State)
  {
    (forall w :: w in st.workers ==> w < st.nextId) &&
    (forall k :: 0 <= k < |st.avails| ==> st.avails[k].id < st.nextId)
  }

  /**
   * The two representations of the worker/availability relation agree:
   * every worker's availabilities array is exactly the ids of the
   * availabilities that point back to it, in insertion order; every
   * availability points to a stored worker; ids are below the next fresh
   * id and availability ids increase in insertion order.
   */
  predicate Consistent(st: State)
  {
    (forall w :: w in st.workers ==> w < st.nextId) &&
    (forall k :: 0 <= k < |st.avails| ==>
       st.avails[k].id < st.nextId && st.avails[k].worker in st.workers) &&
    (forall i, j :: 0 <= i < j < |st.avails| ==> st.avails[i].id < st.avails[j].id) &&
    (forall w :: w in st.workers ==> st.workers[w].availabilities == ChildIds(st.avails, w))
  }

  /** clearAllData: both collections dropped, the counters reset. The id
      counter is kept, since the store never reuses an id. */
  function Clear(st: State): (r: State)
    ensures Consistent(r) && r.workers == map[] && r.avails == []
    ensures r.numAvails == 0 && r.numWorkersWithAvails == 0 && r.randomWorkerIds == []
  {
    State(0, 0, [], map[], [], st.nextId)
  }

  /** Worker.collection.insertMany(data): documents stored under fresh ids,
      with no availabilities yet. */
  function InsertWorkers(st: State, data: seq<WorkerData>): (r: State)
    ensures forall id :: id in r.workers <==> id in st.workers || st.nextId <= id < r.nextId
    ensures r.nextId == st.nextId + |data|
    ensures r.avails == st.avails && r.randomWorkerIds == st.randomWorkerIds
  {
    st.(workers := st.workers + NewWorkers(st.nextId, data), nextId := st.nextId + |data|)
  }

  /** The worker documents stored by a bulk insert of `data` from id `next`
      on, each with an empty availabilities array. */
  function NewWorkers(next: Id, data: seq<WorkerData>): (m: map<Id, WorkerDoc>)
    ensures forall id :: id in m <==> next <= id < next + |data|
    ensures forall id :: id in m ==> m[id] == WorkerDoc(data[id - next], [])
  {
    if data == [] then map[]
    else
      var n := |data| - 1;
      NewWorkers(next, data[..n])[next + n := WorkerDoc(data[n], [])]
  }

  /** The availability documents that Availability.collection.insertMany
      stores for `data`, each with back-reference `worker`. */
  function NewAvailabilities(next: Id, worker: Id, data: seq<AvailabilityData>): (r: seq<Availability>)
    ensures |r| == |data|
    ensures forall k :: 0 <= k < |r| ==> r[k] == Availability(next + k, worker, data[k])
  {
    if data == [] then []
    else
      var n := |data| - 1;
      NewAvailabilities(next, worker, data[..n]) + [Availability(next + n, worker, data[n])]
  }

  /**
   * The work one selected worker `id` causes: num added to numAvails,
   * numWorkersWithAvails incremented, id pushed to randomWorkerIds, the
   * availabilities inserted, and their ids appended to the worker's array.
   */
  function Attach(st: State, id: Id, num: int, data: seq<AvailabilityData>): (r: State)
    requires id in st.workers
    ensures r.workers.Keys == st.workers.Keys
    ensures |r.avails| == |st.avails| + |data| && r.nextId == st.nextId + |data|
  {
    var doc := st.workers[id];
    State(
      st.numAvails + num,
      st.numWorkersWithAvails + 1,
      st.randomWorkerIds + [id],
      st.workers[id := doc.(availabilities := doc.availabilities + FreshIds(st.nextId, |data|))],
      st.avails + NewAvailabilities(st.nextId, id, data),
      st.nextId + |data|)
  }

  /** The selection loop over the inserted workers `ids`, one Pick each. */
  function SelectionLoop(st: State, ids: seq<Id>, picks: seq<Pick>): (r: State)
    requires |ids| == |picks|
    requires forall k :: 0 <= k < |ids| ==> ids[k] in st.workers
    ensures r.workers.Keys == st.workers.Keys
    decreases |ids|
  {
    if ids == [] then st
    else
      var n := |ids| - 1;
      var before := SelectionLoop(st, ids[..n], picks[..n]);
      match picks[n]
      case Skip => before
      case Give(num, data) => Attach(before, ids[n], num, data)
  }

  /** generateData: randomWorkerIds reset, the generated workers inserted,
      then the selection loop over their ids in insertion order. */
  function Generated(st: State, data: seq<WorkerData>, picks: seq<Pick>): (r: State)
    requires |picks| == |data|
    ensures forall id :: id in r.workers <==> id in st.workers || st.nextId <= id < st.nextId + |data|
  {
    var inserted := InsertWorkers(st.(randomWorkerIds := []), data);
    SelectionLoop(inserted, FreshIds(st.nextId, |data|), picks)
  }

  /** Number of selected workers. */
  function NumGiven(picks: seq<Pick>): nat
  {
    if picks == [] then 0
    else NumGiven(picks[..|picks| - 1]) + (if picks[|picks| - 1].Give? then 1 else 0)
  }

  /** Sum of the availability counts drawn for the selected workers. */
  function SumNums(picks: seq<Pick>): int
  {
    if picks == [] then 0
    else
      var last := picks[|picks| - 1];
      SumNums(picks[..|picks| - 1]) + (if last.Give? then last.num else 0)
  }

  /** Positions of the selected workers. */
  function SelectedIndices(picks: seq<Pick>): seq<nat>
  {
    if picks == [] then []
    else
      var n := |picks| - 1;
      SelectedIndices(picks[..n]) + (if picks[n].Give? then [n] else [])
  }

  /** Ids of the selected workers. */
  function Selected(ids: seq<Id>, picks: seq<Pick>): seq<Id>
    requires |ids| == |picks|
  {
    if ids == [] then []
    else
      var n := |ids| - 1;
      Selected(ids[..n], picks[..n]) + (if picks[n].Give? then [ids[n]] else [])
  }

  /** Number of availabilities generated for worker w across the loop. */
  function GivenTo(ids: seq<Id>, picks: seq<Pick>, w: Id): nat
    requires |ids| == |picks|
  {
    if ids == [] then 0
    else
      var n := |ids| - 1;
      GivenTo(ids[..n], picks[..n], w) +
        (if picks[n].Give? && ids[n] == w then |picks[n].availsData| else 0)
  }

  /** Each selected worker has as many generated records as its count says
      (the `for (j = 0; j < num; j++)` loop). */
  predicate PicksSized(picks: seq<Pick>)
  {
    forall k :: 0 <= k < |picks| && picks[k].Give? ==>
      |picks[k].availsData| == Iterations(picks[k].num)
  }

  /** Besides, every count drawn lies in [lo, hi]. */
  predicate PicksWithin(picks: seq<Pick>, lo: int, hi: int)
  {
    PicksSized(picks) &&
    forall k :: 0 <= k < |picks| && picks[k].Give? ==> lo <= picks[k].num <= hi
  }

  // ---------------------------------------------------------------------
  // Lemmas about ChildIds

  lemma {:induction false} ChildIdsAppend(a: seq<Availability>, b: seq<Availability>, w: Id)
    ensures ChildIds(a + b, w) == ChildIds(a, w) + ChildIds(b, w)
    decreases |b|
  {
    if b == [] {
      assert a + b == a;
    } else {
      var n := |b| - 1;
      var tail := if b[n].worker == w then [b[n].id] else [];
      assert (a + b)[..|a + b| - 1] == a + b[..n];
      assert (a + b)[|a + b| - 1] == b[n];
      ChildIdsAppend(a, b[..n], w);
      calc {
        ChildIds(a + b, w);
        ChildIds(a + b[..n], w) + tail;
        ChildIds(a, w) + ChildIds(b[..n], w) + tail;
        ChildIds(a, w) + ChildIds(b, w);
      }
    }
  }

  lemma {:induction false} ChildIdsNone(avails: seq<Availability>, w: Id)
    requires forall k :: 0 <= k < |avails| ==> avails[k].worker != w
    ensures ChildIds(avails, w) == []
    decreases |avails|
  {
    if avails != [] {
      ChildIdsNone(avails[..|avails| - 1], w);
    }
  }

  lemma {:induction false} ChildIdsOfNew(next: Id, worker: Id, data: seq<AvailabilityData>, w: Id)
    ensures ChildIds(NewAvailabilities(next, worker, data), w)
              == if w == worker then FreshIds(next, |data|) else []
    decreases |data|
  {
    if data != [] {
      var n := |data| - 1;
      var prev := NewAvailabilities(next, worker, data[..n]);
      var last := Availability(next + n, worker, data[n]);
      var all := prev + [last];
      assert NewAvailabilities(next, worker, data) == all;
      assert all[..|all| - 1] == prev && all[|all| - 1] == last;
      var tail := if last.worker == w then [last.id] else [];
      assert ChildIds(all, w) == ChildIds(prev, w) + tail;
      ChildIdsOfNew(next, worker, data[..n], w);
      assert FreshIds(next, |data|) == FreshIds(next, n) + [next + n];
    }
  }


  /** x is in ChildIds(avails, w) exactly when some availability with id x
      points back to w. */
  lemma {:induction false} ChildIdsMember(avails: seq<Availability>, w: Id, x: Id)
    ensures x in ChildIds(avails, w) <==>
              exists k :: 0 <= k < |avails| && avails[k].worker == w && avails[k].id == x
    decreases |avails|
  {
    if avails != [] {
      var n := |avails| - 1;
      ChildIdsMember(avails[..n], w, x);
      if exists k :: 0 <= k < |avails| && avails[k].worker == w && avails[k].id == x {
        var k :| 0 <= k < |avails| && avails[k].worker == w && avails[k].id == x;
        if k < n {
          assert avails[..n][k] == avails[k];
        }
      }
      if exists k :: 0 <= k < n && avails[..n][k].worker == w && avails[..n][k].id == x {
        var k :| 0 <= k < n && avails[..n][k].worker == w && avails[..n][k].id == x;
        assert avails[k] == avails[..n][k];
      }
    }
  }

  /**
   * In a consistent store an availability's id is in a worker's array
   * exactly when the availability points back to that worker: the two
   * access paths see the same relation.
   */
  lemma LinkedBothWays(st: State, k: nat, w: Id)
    requires Consistent(st)
    requires k < |st.avails| && w in st.workers
    ensures st.avails[k].id in st.workers[w].availabilities <==> st.avails[k].worker == w
  {
    var a := st.avails[k];
    ChildIdsMember(st.avails, w, a.id);
    if a.id in st.workers[w].availabilities {
      var j :| 0 <= j < |st.avails| && st.avails[j].worker == w && st.avails[j].id == a.id;
    }
  }

  // ---------------------------------------------------------------------
  // Consistency is kept by every step

  lemma InsertWorkersConsistent(st: State, data: seq<WorkerData>)
    requires Consistent(st)
    ensures Consistent(InsertWorkers(st, data))
    ensures forall id :: st.nextId <= id < st.nextId + |data| ==>
              id in InsertWorkers(st, data).workers &&
              InsertWorkers(st, data).workers[id] == WorkerDoc(data[id - st.nextId], [])
    ensures forall w :: w in st.workers ==> InsertWorkers(st, data).workers[w] == st.workers[w]
  {
    var r := InsertWorkers(st, data);
    forall w | w in r.workers
      ensures r.workers[w].availabilities == ChildIds(r.avails, w)
    {
      if w !in st.workers {
        ChildIdsNone(st.avails, w);
      }
    }
  }

  lemma AttachConsistent(st: State, id: Id, num: int, data: seq<AvailabilityData>)
    requires Consistent(st) && id in st.workers
    ensures Consistent(Attach(st, id, num, data))
  {
    var r := Attach(st, id, num, data);
    var added := NewAvailabilities(st.nextId, id, data);
    forall w | w in r.workers
      ensures r.workers[w].availabilities == ChildIds(r.avails, w)
    {
      ChildIdsAppend(st.avails, added, w);
      ChildIdsOfNew(st.nextId, id, data, w);
    }
    forall i, j | 0 <= i < j < |r.avails|
      ensures r.avails[i].id < r.avails[j].id
    {
      if j >= |st.avails| && i < |st.avails| {
        assert r.avails[i] == st.avails[i];
        assert r.avails[j] == added[j - |st.avails|];
      }
    }
  }

  /** The ids of a run of availabilities, in order. */
  function IdsOf(avails: seq<Availability>): (ids: seq<Id>)
    ensures |ids| == |avails|
    ensures forall k :: 0 <= k < |avails| ==> ids[k] == avails[k].id
  {
    seq(|avails|, k requires 0 <= k < |avails| => avails[k].id)
  }

  /**
   * One selected worker: the availabilities appended to the collection are
   * one per generated record, each points back to the worker, and the
   * worker's array gains exactly their ids, in insertion order; every other
   * worker is left as it was.
   */
  lemma AttachLinks(st: State, id: Id, num: int, data: seq<AvailabilityData>)
    requires id in st.workers
    ensures var r := Attach(st, id, num, data);
      var added := r.avails[|st.avails|..];
      |r.avails| == |st.avails| + |data| &&
      r.avails[..|st.avails|] == st.avails &&
      (forall j :: 0 <= j < |added| ==> added[j].worker == id && added[j].data == data[j]) &&
      r.workers[id].availabilities == st.workers[id].availabilities + IdsOf(added) &&
      (forall w :: w in st.workers && w != id ==> r.workers[w] == st.workers[w])
  {
    var r := Attach(st, id, num, data);
    var added := NewAvailabilities(st.nextId, id, data);
    assert r.avails[|st.avails|..] == added;
    assert r.avails[..|st.avails|] == st.avails;
    assert IdsOf(added) == FreshIds(st.nextId, |data|);
  }

  lemma {:induction false} SelectionConsistent(st: State, ids: seq<Id>, picks: seq<Pick>)
    requires Consistent(st)
    requires |ids| == |picks|
    requires forall k :: 0 <= k < |ids| ==> ids[k] in st.workers
    ensures Consistent(SelectionLoop(st, ids, picks))
    decreases |ids|
  {
    if ids != [] {
      var n := |ids| - 1;
      SelectionConsistent(st, ids[..n], picks[..n]);
      if picks[n].Give? {
        AttachConsistent(SelectionLoop(st, ids[..n], picks[..n]), ids[n], picks[n].num, picks[n].availsData);
      }
    }
  }

  /** A worker the loop does not select keeps its document. */
  lemma {:induction false} SelectionLeavesOthers(st: State, ids: seq<Id>, picks: seq<Pick>, w: Id)
    requires |ids| == |picks|
    requires forall k :: 0 <= k < |ids| ==> ids[k] in st.workers
    requires w in st.workers && w !in Selected(ids, picks)
    ensures SelectionLoop(st, ids, picks).workers[w] == st.workers[w]
    decreases |ids|
  {
    if ids != [] {
      var n := |ids| - 1;
      assert Selected(ids[..n], picks[..n]) <= Selected(ids, picks);
      SelectionLeavesOthers(st, ids[..n], picks[..n], w);
    }
  }

  // ---------------------------------------------------------------------
  // Fresh ids stay fresh

  /** A bulk worker insert keeps every id below the counter and overwrites
      no stored worker. */
  lemma InsertWorkersIds(st: State, data: seq<WorkerData>)
    requires IdsBelowNext(st)
    ensures IdsBelowNext(InsertWorkers(st, data))
    ensures forall w :: w in st.workers ==> InsertWorkers(st, data).workers[w] == st.workers[w]
  {
    var added := NewWorkers(st.nextId, data);
    forall w | w in st.workers
      ensures (st.workers + added)[w] == st.workers[w]
    {
      assert w !in added;
    }
  }

  lemma AttachIds(st: State, id: Id, num: int, data: seq<AvailabilityData>)
    requires IdsBelowNext(st) && id in st.workers
    ensures IdsBelowNext(Attach(st, id, num, data))
  {
    var r := Attach(st, id, num, data);
    var added := NewAvailabilities(st.nextId, id, data);
    forall k | 0 <= k < |r.avails|
      ensures r.avails[k].id < r.nextId
    {
      if k >= |st.avails| {
        assert r.avails[k] == added[k - |st.avails|];
      } else {
        assert r.avails[k] == st.avails[k];
      }
    }
  }

  lemma {:induction false} SelectionIds(st: State, ids: seq<Id>, picks: seq<Pick>)
    requires IdsBelowNext(st)
    requires |ids| == |picks|
    requires forall k :: 0 <= k < |ids| ==> ids[k] in st.workers
    ensures IdsBelowNext(SelectionLoop(st, ids, picks))
    decreases |ids|
  {
    if ids != [] {
      var n := |ids| - 1;
      SelectionIds(st, ids[..n], picks[..n]);
      if picks[n].Give? {
        AttachIds(SelectionLoop(st, ids[..n], picks[..n]), ids[n], picks[n].num, picks[n].availsData);
      }
    }
  }

  // ---------------------------------------------------------------------
  // Counters

  /** What the selection loop adds to the three counters. */
  lemma {:induction false} SelectionCounters(st: State, ids: seq<Id>, picks: seq<Pick>)
    requires |ids| == |picks|
    requires forall k :: 0 <= k < |ids| ==> ids[k] in st.workers
    ensures SelectionLoop(st, ids, picks).numWorkersWithAvails == st.numWorkersWithAvails + NumGiven(picks)
    ensures SelectionLoop(st, ids, picks).numAvails == st.numAvails + SumNums(picks)
    ensures SelectionLoop(st, ids, picks).randomWorkerIds == st.randomWorkerIds + Selected(ids, picks)
    decreases |ids|
  {
    if ids != [] {
      var n := |ids| - 1;
      SelectionCounters(st, ids[..n], picks[..n]);
    }
  }

  /** With every count in [lo, hi], the total lies in [lo * k, hi * k] for
      k selected workers. */
  lemma {:induction false} SumNumsBounds(picks: seq<Pick>, lo: int, hi: int)
    requires PicksWithin(picks, lo, hi)
    ensures lo * NumGiven(picks) <= SumNums(picks) <= hi * NumGiven(picks)
    decreases |picks|
  {
    if picks != [] {
      var n := |picks| - 1;
      SumNumsBounds(picks[..n], lo, hi);
      if picks[n].Give? {
        assert lo * (NumGiven(picks[..n]) + 1) == lo * NumGiven(picks[..n]) + lo;
        assert hi * (NumGiven(picks[..n]) + 1) == hi * NumGiven(picks[..n]) + hi;
      }
    }
  }

  /** When every count is non-negative, the counts add up to the number of
      availability records generated. */
  lemma {:induction false} SumNumsCountsRecords(picks: seq<Pick>, lo: int, hi: int)
    requires PicksWithin(picks, lo, hi) && 0 <= lo
    ensures SumNums(picks) == TotalRecords(picks)
    decreases |picks|
  {
    if picks != [] {
      SumNumsCountsRecords(picks[..|picks| - 1], lo, hi);
    }
  }

  lemma {:induction false} AllGiven(picks: seq<Pick>)
    requires forall k :: 0 <= k < |picks| ==> picks[k].Give?
    ensures NumGiven(picks) == |picks|
    decreases |picks|
  {
    if picks != [] {
      var n := |picks| - 1;
      assert forall k :: 0 <= k < n ==> picks[..n][k] == picks[k];
      AllGiven(picks[..n]);
    }
  }

  lemma {:induction false} NoneGiven(picks: seq<Pick>)
    requires forall k :: 0 <= k < |picks| ==> picks[k].Skip?
    ensures NumGiven(picks) == 0 && SumNums(picks) == 0 && TotalRecords(picks) == 0
    decreases |picks|
  {
    if picks != [] {
      var n := |picks| - 1;
      assert forall k :: 0 <= k < n ==> picks[..n][k] == picks[k];
      NoneGiven(picks[..n]);
    }
  }

  /** Number of availability records the selection loop generates. */
  function TotalRecords(picks: seq<Pick>): nat
  {
    if picks == [] then 0
    else
      var last := picks[|picks| - 1];
      TotalRecords(picks[..|picks| - 1]) + (if last.Give? then |last.availsData| else 0)
  }

  lemma {:induction false} SelectionAvails(st: State, ids: seq<Id>, picks: seq<Pick>)
    requires |ids| == |picks|
    requires forall k :: 0 <= k < |ids| ==> ids[k] in st.workers
    ensures |SelectionLoop(st, ids, picks).avails| == |st.avails| + TotalRecords(picks)
    ensures SelectionLoop(st, ids, picks).avails[..|st.avails|] == st.avails
    decreases |ids|
  {
    if ids != [] {
      var n := |ids| - 1;
      SelectionAvails(st, ids[..n], picks[..n]);
    }
  }

  // ---------------------------------------------------------------------
  // randomWorkerIds

  lemma {:induction false} SelectedLength(ids: seq<Id>, picks: seq<Pick>)
    requires |ids| == |picks|
    ensures |Selected(ids, picks)| == |SelectedIndices(picks)| == NumGiven(picks)
    decreases |ids|
  {
    if ids != [] {
      SelectedLength(ids[..|ids| - 1], picks[..|ids| - 1]);
    }
  }

  /** The k-th selected id is the id at the k-th selected position, and that
      position was selected. */
  lemma {:induction false} SelectedAt(ids: seq<Id>, picks: seq<Pick>)
    requires |ids| == |picks|
    ensures |Selected(ids, picks)| == |SelectedIndices(picks)|
    ensures forall k :: 0 <= k < |SelectedIndices(picks)| ==>
              SelectedIndices(picks)[k] < |picks| &&
              picks[SelectedIndices(picks)[k]].Give? &&
              Selected(ids, picks)[k] == ids[SelectedIndices(picks)[k]]
    decreases |ids|
  {
    SelectedLength(ids, picks);
    if ids != [] {
      var n := |ids| - 1;
      SelectedAt(ids[..n], picks[..n]);
      var prev := SelectedIndices(picks[..n]);
      forall k | 0 <= k < |prev|
        ensures picks[prev[k]] == picks[..n][prev[k]] && ids[prev[k]] == ids[..n][prev[k]]
      {
      }
    }
  }

  /** The selected positions are listed in increasing order. */
  lemma {:induction false} SelectedIndicesIncreasing(picks: seq<Pick>)
    ensures forall k :: 0 <= k < |SelectedIndices(picks)| ==> SelectedIndices(picks)[k] < |picks|
    ensures forall k, l :: 0 <= k < l < |SelectedIndices(picks)| ==>
              SelectedIndices(picks)[k] < SelectedIndices(picks)[l]
    decreases |picks|
  {
    if picks != [] {
      SelectedIndicesIncreasing(picks[..|picks| - 1]);
    }
  }

  /** Every selected position is listed. */
  lemma {:induction false} SelectedIndicesComplete(picks: seq<Pick>)
    ensures forall i :: 0 <= i < |picks| && picks[i].Give? ==> i in SelectedIndices(picks)
    decreases |picks|
  {
    if picks != [] {
      var n := |picks| - 1;
      SelectedIndicesComplete(picks[..n]);
      forall i | 0 <= i < n && picks[i].Give?
        ensures i in SelectedIndices(picks)
      {
        assert picks[..n][i] == picks[i];
      }
    }
  }

  /** Distinct ids give distinct selected ids. */
  lemma SelectedDistinct(ids: seq<Id>, picks: seq<Pick>)
    requires |ids| == |picks| && Distinct(ids)
    ensures Distinct(Selected(ids, picks))
  {
    SelectedAt(ids, picks);
    SelectedIndicesIncreasing(picks);
    var idx := SelectedIndices(picks);
    forall k, l | 0 <= k < l < |Selected(ids, picks)|
      ensures Selected(ids, picks)[k] != Selected(ids, picks)[l]
    {
      assert idx[k] < idx[l];
    }
  }

  // ---------------------------------------------------------------------
  // Each worker's array

  /** Over the loop, worker w keeps its fields, and its array keeps its old
      entries followed by one new entry per availability generated for it. */
  lemma {:induction false} SelectionWorker(st: State, ids: seq<Id>, picks: seq<Pick>, w: Id)
    requires |ids| == |picks|
    requires forall k :: 0 <= k < |ids| ==> ids[k] in st.workers
    requires w in st.workers
    ensures SelectionLoop(st, ids, picks).workers[w].data == st.workers[w].data
    ensures st.workers[w].availabilities <= SelectionLoop(st, ids, picks).workers[w].availabilities
    ensures |SelectionLoop(st, ids, picks).workers[w].availabilities|
              == |st.workers[w].availabilities| + GivenTo(ids, picks, w)
    decreases |ids|
  {
    if ids != [] {
      var n := |ids| - 1;
      SelectionWorker(st, ids[..n], picks[..n], w);
    }
  }

  /** With distinct ids, worker ids[i] receives exactly the records of its
      own pick. */
  lemma {:induction false} GivenToDistinct(ids: seq<Id>, picks: seq<Pick>, i: nat)
    requires |ids| == |picks| && Distinct(ids) && i < |ids|
    ensures GivenTo(ids, picks, ids[i]) == if picks[i].Give? then |picks[i].availsData| else 0
    decreases |ids|
  {
    var n := |ids| - 1;
    if i < n {
      assert ids[..n][i] == ids[i];
      GivenToDistinct(ids[..n], picks[..n], i);
    } else {
      GivenToAbsent(ids[..n], picks[..n], ids[n]);
    }
  }

  lemma {:induction false} GivenToAbsent(ids: seq<Id>, picks: seq<Pick>, w: Id)
    requires |ids| == |picks| && w !in ids
    ensures GivenTo(ids, picks, w) == 0
    decreases |ids|
  {
    if ids != [] {
      var n := |ids| - 1;
      assert ids[n] in ids;
      GivenToAbsent(ids[..n], picks[..n], w);
    }
  }

  // ---------------------------------------------------------------------
  // generateData

  lemma FreshIdsDistinct(next: Id, n: nat)
    ensures Distinct(FreshIds(next, n))
  {
  }

  /** The j-th fresh id of a bulk worker insert holds the j-th document. */
  lemma InsertedWorkers(st: State, data: seq<WorkerData>)
    ensures forall j :: 0 <= j < |data| ==>
              FreshIds(st.nextId, |data|)[j] in InsertWorkers(st, data).workers &&
              InsertWorkers(st, data).workers[FreshIds(st.nextId, |data|)[j]] == WorkerDoc(data[j], [])
  {
    var added := NewWorkers(st.nextId, data);
    var ids := FreshIds(st.nextId, |data|);
    forall j | 0 <= j < |data|
      ensures ids[j] in st.workers + added && (st.workers + added)[ids[j]] == WorkerDoc(data[j], [])
    {
      assert ids[j] in added;
    }
  }

  /** generateData keeps the store consistent: every worker's array still
      matches the back-references of the availabilities. */
  lemma GeneratedConsistent(st: State, data: seq<WorkerData>, picks: seq<Pick>)
    requires Consistent(st) && |picks| == |data|
    ensures Consistent(Generated(st, data, picks))
  {
    var st0 := st.(randomWorkerIds := []);
    var ids := FreshIds(st.nextId, |data|);
    InsertWorkersConsistent(st0, data);
    SelectionConsistent(InsertWorkers(st0, data), ids, picks);
  }

  /**
   * What generateData does to the counters: randomWorkerIds lists the ids of
   * exactly the selected workers, in insertion order and without
   * duplicates; numWorkersWithAvails grows by its length and numAvails by
   * the counts drawn.
   */
  lemma GeneratedSelection(st: State, data: seq<WorkerData>, picks: seq<Pick>)
    requires |picks| == |data|
    ensures var r := Generated(st, data, picks);
      r.randomWorkerIds == Selected(FreshIds(st.nextId, |data|), picks) &&
      Distinct(r.randomWorkerIds) &&
      r.numWorkersWithAvails == st.numWorkersWithAvails + |r.randomWorkerIds| &&
      r.numAvails == st.numAvails + SumNums(picks)
  {
    var ids := FreshIds(st.nextId, |data|);
    var inserted := InsertWorkers(st.(randomWorkerIds := []), data);
    InsertedWorkers(st.(randomWorkerIds := []), data);
    SelectionCounters(inserted, ids, picks);
    SelectedLength(ids, picks);
    SelectedDistinct(ids, picks);
  }

  /**
   * generateData on counters just reset by clearAllData, with every count
   * in [lo, hi]: numWorkersWithAvails is the length of randomWorkerIds,
   * numAvails lies in [lo, hi] times numWorkersWithAvails and, for
   * non-negative counts, is the number of availabilities created.
   */
  lemma GenerateAfterClear(st: State, data: seq<WorkerData>, picks: seq<Pick>, lo: int, hi: int)
    requires st.numAvails == 0 && st.numWorkersWithAvails == 0
    requires |picks| == |data| && PicksWithin(picks, lo, hi)
    ensures var r := Generated(st, data, picks);
      r.numWorkersWithAvails == |r.randomWorkerIds| &&
      lo * r.numWorkersWithAvails <= r.numAvails <= hi * r.numWorkersWithAvails &&
      (0 <= lo ==> r.numAvails == |r.avails| - |st.avails|)
  {
    var ids := FreshIds(st.nextId, |data|);
    var inserted := InsertWorkers(st.(randomWorkerIds := []), data);
    InsertedWorkers(st.(randomWorkerIds := []), data);
    GeneratedSelection(st, data, picks);
    SelectedLength(ids, picks);
    SumNumsBounds(picks, lo, hi);
    SelectionAvails(inserted, ids, picks);
    if 0 <= lo {
      SumNumsCountsRecords(picks, lo, hi);
    }
  }

  /** Over the loop with distinct ids, the worker w at position k keeps its
      fields and gains one array entry per record of its own pick. */
  lemma LoopWorker(st: State, ids: seq<Id>, picks: seq<Pick>, k: nat, w: Id)
    requires |ids| == |picks| && Distinct(ids) && k < |ids| && PicksSized(picks)
    requires forall j :: 0 <= j < |ids| ==> ids[j] in st.workers
    requires ids[k] == w
    ensures var doc := SelectionLoop(st, ids, picks).workers[w];
      doc.data == st.workers[w].data &&
      |doc.availabilities| == |st.workers[w].availabilities| +
        if picks[k].Give? then Iterations(picks[k].num) else 0
  {
    SelectionWorker(st, ids, picks, w);
    GivenToDistinct(ids, picks, k);
  }

  /** When every worker is selected, generateData adds one to
      numWorkersWithAvails per worker and records every inserted id. */
  lemma GeneratedAllSelected(st: State, data: seq<WorkerData>, picks: seq<Pick>)
    requires |picks| == |data|
    requires forall k :: 0 <= k < |picks| ==> picks[k].Give?
    ensures var r := Generated(st, data, picks);
      r.numWorkersWithAvails == st.numWorkersWithAvails + |data| &&
      |r.randomWorkerIds| == |data|
  {
    GeneratedSelection(st, data, picks);
    SelectedLength(FreshIds(st.nextId, |data|), picks);
    AllGiven(picks);
  }

  /** When no worker is selected, generateData leaves the counters and the
      availability collection as they were, and randomWorkerIds empty. */
  lemma GeneratedNoneSelected(st: State, data: seq<WorkerData>, picks: seq<Pick>)
    requires |picks| == |data|
    requires forall k :: 0 <= k < |picks| ==> picks[k].Skip?
    ensures var r := Generated(st, data, picks);
      r.numWorkersWithAvails == st.numWorkersWithAvails &&
      r.numAvails == st.numAvails &&
      r.randomWorkerIds == [] &&
      r.avails == st.avails
  {
    var ids := FreshIds(st.nextId, |data|);
    var inserted := InsertWorkers(st.(randomWorkerIds := []), data);
    InsertedWorkers(st.(randomWorkerIds := []), data);
    GeneratedSelection(st, data, picks);
    SelectedLength(ids, picks);
    NoneGiven(picks);
    SelectionAvails(inserted, ids, picks);
  }

  /** The selected ids are among the loop's ids. */
  lemma SelectedAmong(ids: seq<Id>, picks: seq<Pick>, w: Id)
    requires |ids| == |picks| && w in Selected(ids, picks)
    ensures w in ids
  {
    SelectedAt(ids, picks);
    var k :| 0 <= k < |Selected(ids, picks)| && Selected(ids, picks)[k] == w;
    assert ids[SelectedIndices(picks)[k]] == w;
  }

  /**
   * With every stored id below the counter, generateData keeps it so and
   * leaves every worker stored before it untouched: the new workers get
   * fresh ids, and only they can be selected.
   */
  lemma GeneratedKeepsEarlier(st: State, data: seq<WorkerData>, picks: seq<Pick>)
    requires IdsBelowNext(st) && |picks| == |data|
    ensures IdsBelowNext(Generated(st, data, picks))
    ensures forall w :: w in st.workers ==> Generated(st, data, picks).workers[w] == st.workers[w]
  {
    var st0 := st.(randomWorkerIds := []);
    var ids := FreshIds(st.nextId, |data|);
    var inserted := InsertWorkers(st0, data);
    InsertedWorkers(st0, data);
    InsertWorkersIds(st0, data);
    SelectionIds(inserted, ids, picks);
    forall w | w in st.workers
      ensures SelectionLoop(inserted, ids, picks).workers[w] == st.workers[w]
    {
      if w in Selected(ids, picks) {
        SelectedAmong(ids, picks, w);
        assert false;
      }
      SelectionLeavesOthers(inserted, ids, picks, w);
    }
  }

  /** After generateData the k-th generated worker is stored under the k-th
      fresh id with its generated fields, and its array holds one id per
      availability generated for it: none when it was not selected. */
  lemma GeneratedWorkers(st: State, data: seq<WorkerData>, picks: seq<Pick>, k: nat)
    requires |picks| == |data| && PicksSized(picks) && k < |data|
    ensures var r := Generated(st, data, picks);
      st.nextId + k in r.workers &&
      r.workers[st.nextId + k].data == data[k] &&
      |r.workers[st.nextId + k].availabilities| ==
        if picks[k].Give? then Iterations(picks[k].num) else 0
  {
    var ids := FreshIds(st.nextId, |data|);
    var inserted := InsertWorkers(st.(randomWorkerIds := []), data);
    var w: Id := st.nextId + k;
    InsertedWorkers(st.(randomWorkerIds := []), data);
    FreshIdsDistinct(st.nextId, |data|);
    assert ids[k] == w;
    assert inserted.workers[w] == WorkerDoc(data[k], []);
    LoopWorker(inserted, ids, picks, k, w);
  }



}
