/**
 * The benchmark driver's module-level state and the two operations that
 * rebuild the dataset between test sets: generateData and clearAllData.
 *
 * The counters numAvails, numWorkersWithAvails and randomWorkerIds are
 * fields updated in place, as in the source. The two collections are an
 * abstract in-memory store in fields of the same object: `workers` (worker
 * id to document), `avails` (availability documents in insertion order)
 * and `nextId` (the store's id allocator). Each store call the source
 * makes is a method here that performs it at once, so the per-worker
 * attachments, which the source launches concurrently, run one after the
 * other in worker order.
 */
module Test {
  import opened Utils
  import opened Records
  import opened Dataset

  class TestRun {
    /** Configuration: workers per test set and the range of availability
        counts per selected worker. */
    const numWorkers: nat
    const availLow: int
    const availHigh: int

    /** Chance that a worker is selected to receive availabilities. */
    var availChance: real

    var numAvails: int
    var numWorkersWithAvails: int
    var randomWorkerIds: seq<Id>

    // The abstract store.
    var workers: map<Id, WorkerDoc>
    var avails: seq<Availability>
    var nextId: Id

    /** The counters and the store as a value. */
    ghost function Snapshot(): State
      reads this
    {
      State(numAvails, numWorkersWithAvails, randomWorkerIds, workers, avails, nextId)
    }

    ghost predicate Valid()
      reads this
    {
      Consistent(Snapshot())
    }

    /** The id counter is ahead of every stored id, so each insert gets
        ids no document holds yet. */
    ghost predicate IdsAhead()
      reads this
    {
      IdsBelowNext(Snapshot())
    }

    /** Initial values of the module-level variables, over whatever the
        persistent database already holds. */
    constructor (numWorkers: nat, availLow: int, availHigh: int,
                 workers: map<Id, WorkerDoc>, avails: seq<Availability>, nextId: Id)
      requires forall w :: w in workers ==> w < nextId
      requires forall k :: 0 <= k < |avails| ==> avails[k].id < nextId
      ensures IdsAhead()
      ensures this.numWorkers == numWorkers
      ensures this.availLow == availLow && this.availHigh == availHigh
      ensures availChance == 0.0
      ensures Snapshot() == State(0, 0, [], workers, avails, nextId)
    {
      this.numWorkers := numWorkers;
      this.availLow := availLow;
      this.availHigh := availHigh;
      availChance := 0.0;
      numAvails := 0;
      numWorkersWithAvails := 0;
      randomWorkerIds := [];
      this.workers := workers;
      this.avails := avails;
      this.nextId := nextId;
    }

    /** clearAllData(): drop both collections (dropping a missing one is
        ignored) and reset the counters. */
    method ClearAllData()
      modifies this
      ensures Valid() && IdsAhead() && Snapshot() == Clear(old(Snapshot()))
      ensures availChance == old(availChance)
    {
      workers := map[];
      avails := [];
      numAvails := 0;
      numWorkersWithAvails := 0;
      randomWorkerIds := [];
    }

    /** Worker.collection.insertMany(data): the inserted ids, in order. */
    method InsertWorkerDocs(data: seq<WorkerData>) returns (ids: seq<Id>)
      requires IdsAhead()
      modifies this
      ensures IdsAhead()
      ensures ids == FreshIds(old(nextId), |data|)
      ensures Snapshot() == InsertWorkers(old(Snapshot()), data)
      ensures availChance == old(availChance)
    {
      ids := FreshIds(nextId, |data|);
      workers := workers + NewWorkers(nextId, data);
      nextId := nextId + |data|;
      InsertWorkersIds(old(Snapshot()), data);
    }

    /** Availability.collection.insertMany(data, each with back-reference
        `worker`): the inserted ids, in order. */
    method InsertAvailabilityDocs(worker: Id, data: seq<AvailabilityData>) returns (ids: seq<Id>)
      requires IdsAhead()
      modifies this
      ensures IdsAhead()
      ensures ids == FreshIds(old(nextId), |data|)
      ensures avails == old(avails) + NewAvailabilities(old(nextId), worker, data)
      ensures nextId == old(nextId) + |data|
      ensures workers == old(workers) && availChance == old(availChance)
      ensures numAvails == old(numAvails) && numWorkersWithAvails == old(numWorkersWithAvails)
      ensures randomWorkerIds == old(randomWorkerIds)
    {
      ids := FreshIds(nextId, |data|);
      var added := NewAvailabilities(nextId, worker, data);
      avails := avails + added;
      nextId := nextId + |data|;
      forall k | 0 <= k < |avails|
        ensures avails[k].id < nextId
      {
        if k >= |old(avails)| {
          assert avails[k] == added[k - |old(avails)|];
        } else {
          assert avails[k] == old(avails)[k];
        }
      }
    }

    /** Worker.findById(id), push every new id onto its availabilities,
        then worker.save(). */
    method LinkAvailabilities(id: Id, newIds: seq<Id>)
      requires id in workers && IdsAhead()
      modifies this
      ensures IdsAhead()
      ensures workers == old(workers)[id := old(workers)[id].(availabilities :=
                                              old(workers)[id].availabilities + newIds)]
      ensures avails == old(avails) && nextId == old(nextId)
      ensures numAvails == old(numAvails) && numWorkersWithAvails == old(numWorkersWithAvails)
      ensures randomWorkerIds == old(randomWorkerIds) && availChance == old(availChance)
    {
      var worker := workers[id];
      var list := worker.availabilities;
      var j := 0;
      while j < |newIds|
        invariant 0 <= j <= |newIds|
        invariant list == worker.availabilities + newIds[..j]
      {
        list := list + [newIds[j]];
        j := j + 1;
      }
      assert newIds[..j] == newIds;
      workers := workers[id := worker.(availabilities := list)];
    }

    /**
     * The body of the promise created for a selected worker `id`: draw its
     * count with randomInt(availLow, availHigh, true), bump the counters,
     * record the id, generate that many availabilities pointing back to
     * it, insert them and append their ids to the worker's array.
     */
    method AttachAvailabilities(id: Id) returns (num: int, availsData: seq<AvailabilityData>)
      requires id in workers && IdsAhead()
      modifies this
      ensures IdsAhead()
      ensures |availsData| == Iterations(num)
      ensures availLow <= availHigh ==> availLow <= num <= availHigh
      ensures forall k :: 0 <= k < |availsData| ==> IsGeneratedAvailability(availsData[k])
      ensures Snapshot() == Attach(old(Snapshot()), id, num, availsData)
      ensures availChance == old(availChance)
    {
      var r := Random();
      num := RandomInt(availLow, availHigh, true, r);
      numAvails := numAvails + num;
      numWorkersWithAvails := numWorkersWithAvails + 1;
      randomWorkerIds := randomWorkerIds + [id];
      availsData := [];
      ghost var counted := Snapshot();
      var j := 0;
      while j < num
        invariant 0 <= j <= Iterations(num) && |availsData| == j
        invariant forall k :: 0 <= k < j ==> IsGeneratedAvailability(availsData[k])
        invariant Snapshot() == counted && availChance == old(availChance) && IdsAhead()
      {
        var a := GenerateRandomAvailabilityData();
        availsData := availsData + [a];
        j := j + 1;
      }
      var newIds := InsertAvailabilityDocs(id, availsData);
      LinkAvailabilities(id, newIds);
    }

    /** What one iteration of the selection loop, at chance `chance`,
        promises about its pick. */
    ghost predicate WellDrawn(p: Pick, chance: real)
    {
      (chance >= 1.0 ==> p.Give?) &&
      (chance <= 0.0 ==> p.Skip?) &&
      (p.Give? ==>
        |p.availsData| == Iterations(p.num) &&
        (availLow <= availHigh ==> availLow <= p.num <= availHigh) &&
        forall j :: 0 <= j < |p.availsData| ==> IsGeneratedAvailability(p.availsData[j]))
    }

    /** One iteration of the selection loop, for the inserted worker `id`:
        select it when Math.random() < availChance and then attach
        availabilities to it. */
    method SelectWorker(id: Id) returns (ghost p: Pick)
      requires id in workers && IdsAhead()
      modifies this
      ensures IdsAhead()
      ensures WellDrawn(p, availChance)
      ensures Snapshot() == match p
                            case Skip => old(Snapshot())
                            case Give(num, data) => Attach(old(Snapshot()), id, num, data)
      ensures availChance == old(availChance)
    {
      var r := Random();
      if r < availChance {
        var num, availsData := AttachAvailabilities(id);
        p := Give(num, availsData);
      } else {
        p := Skip;
      }
    }

    /**
     * The callback of the bulk worker insert: the selection loop over the
     * inserted workers, in insertion order.
     */
    method SelectWorkers(insertedIds: seq<Id>) returns (ghost picks: seq<Pick>)
      requires forall k :: 0 <= k < |insertedIds| ==> insertedIds[k] in workers
      requires IdsAhead()
      modifies this
      ensures IdsAhead()
      ensures |picks| == |insertedIds|
      ensures PicksSized(picks)
      ensures availLow <= availHigh ==> PicksWithin(picks, availLow, availHigh)
      ensures forall k, j :: 0 <= k < |picks| && picks[k].Give? && 0 <= j < |picks[k].availsData| ==>
                IsGeneratedAvailability(picks[k].availsData[j])
      ensures Snapshot() == SelectionLoop(old(Snapshot()), insertedIds, picks)
      ensures availChance == old(availChance)
      ensures availChance >= 1.0 ==> forall k :: 0 <= k < |picks| ==> picks[k].Give?
      ensures availChance <= 0.0 ==> forall k :: 0 <= k < |picks| ==> picks[k].Skip?
    {
      picks := [];
      var i := 0;
      while i < |insertedIds|
        invariant 0 <= i <= |insertedIds| && |picks| == i
        invariant Snapshot() == SelectionLoop(old(Snapshot()), insertedIds[..i], picks)
        invariant forall k :: 0 <= k < |picks| ==> WellDrawn(picks[k], availChance)
        invariant availChance == old(availChance) && IdsAhead()
      {
        ghost var prevPicks := picks;
        var p := SelectWorker(insertedIds[i]);
        picks := picks + [p];
        assert insertedIds[..i + 1][..i] == insertedIds[..i];
        assert picks[..i] == prevPicks;
        i := i + 1;
      }
      assert insertedIds[..i] == insertedIds;
    }

    /**
     * generateData(): reset randomWorkerIds, generate numWorkers workers,
     * insert them in bulk, then run the selection over their ids. The
     * generated records and the per-worker outcomes are returned as ghost
     * values in which the new state is stated.
     */
    method GenerateData() returns (ghost data: seq<WorkerData>, ghost picks: seq<Pick>)
      requires IdsAhead()
      modifies this
      ensures IdsAhead()
      ensures forall w :: w in old(workers) ==> w in workers && workers[w] == old(workers)[w]
      ensures old(Valid()) ==> Valid()
      ensures |data| == numWorkers && |picks| == numWorkers
      ensures forall k :: 0 <= k < |data| ==> IsGeneratedWorker(data[k])
      ensures PicksSized(picks)
      ensures availLow <= availHigh ==> PicksWithin(picks, availLow, availHigh)
      ensures forall k, j :: 0 <= k < |picks| && picks[k].Give? && 0 <= j < |picks[k].availsData| ==>
                IsGeneratedAvailability(picks[k].availsData[j])
      ensures Snapshot() == Generated(old(Snapshot()), data, picks)
      ensures randomWorkerIds == Selected(FreshIds(old(nextId), numWorkers), picks)
      ensures Distinct(randomWorkerIds)
      ensures numWorkersWithAvails == old(numWorkersWithAvails) + |randomWorkerIds|
      ensures availChance == old(availChance)
      ensures availChance >= 1.0 ==> forall k :: 0 <= k < |picks| ==> picks[k].Give?
      ensures availChance <= 0.0 ==> forall k :: 0 <= k < |picks| ==> picks[k].Skip?
    {
      var randomWorkerData: seq<WorkerData> := [];
      randomWorkerIds := [];
      var i := 0;
      while i < numWorkers
        invariant 0 <= i <= numWorkers && |randomWorkerData| == i
        invariant forall k :: 0 <= k < i ==> IsGeneratedWorker(randomWorkerData[k])
        invariant Snapshot() == old(Snapshot()).(randomWorkerIds := [])
        invariant availChance == old(availChance) && IdsAhead()
      {
        var w := GenerateRandomWorkerData();
        randomWorkerData := randomWorkerData + [w];
        i := i + 1;
      }
      data := randomWorkerData;
      var insertedIds := InsertWorkerDocs(randomWorkerData);
      assert forall k :: 0 <= k < |insertedIds| ==> insertedIds[k] in workers;
      picks := SelectWorkers(insertedIds);
      if old(Valid()) {
        GeneratedConsistent(old(Snapshot()), data, picks);
      }
      GeneratedSelection(old(Snapshot()), data, picks);
      GeneratedKeepsEarlier(old(Snapshot()), data, picks);
    }

    /**
     * One test set's data preparation, as the sweep performs it for chance
     * `chance`: set availChance, clearAllData(), generateData(). From any
     * store contents, the store ends consistent; numWorkersWithAvails is the
     * length of randomWorkerIds and numAvails lies between availLow and
     * availHigh times it. A chance of 1 or more selects every worker, one of
     * 0 or less selects none.
     */
    method PrepareTestSet(chance: real) returns (ghost data: seq<WorkerData>, ghost picks: seq<Pick>)
      modifies this
      ensures Valid() && IdsAhead() && availChance == chance
      ensures |data| == |picks| == numWorkers
      ensures Snapshot() == Generated(Clear(old(Snapshot())), data, picks)
      ensures numWorkersWithAvails == |randomWorkerIds| && Distinct(randomWorkerIds)
      ensures availLow <= availHigh ==>
                availLow * numWorkersWithAvails <= numAvails <= availHigh * numWorkersWithAvails
      ensures 0 <= availLow <= availHigh ==> numAvails == |avails|
      ensures chance >= 1.0 ==> numWorkersWithAvails == numWorkers
      ensures chance >= 1.0 && availLow == availHigh ==> numAvails == availLow * numWorkers
      ensures chance <= 0.0 ==>
                numWorkersWithAvails == 0 && numAvails == 0 && randomWorkerIds == [] && avails == []
    {
      availChance := chance;
      ClearAllData();
      ghost var cleared := Snapshot();
      data, picks := GenerateData();
      if availLow <= availHigh {
        GenerateAfterClear(cleared, data, picks, availLow, availHigh);
      }
      if chance >= 1.0 {
        GeneratedAllSelected(cleared, data, picks);
      }
      if chance <= 0.0 {
        GeneratedNoneSelected(cleared, data, picks);
      }
    }
  }
}
