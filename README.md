# Synthetic data of the MongoDB worker/availability benchmark, in Dafny

The benchmark fills a MongoDB database with randomly generated *workers*
and *availabilities*. It gives a random subset of the workers a few
availabilities each, then measures lookup queries. This project models the
part that produces the data:

- **Utils** (`utils.dfy`, from `utils.js`): the random generators
  `randomInt`, `randomLetter`, `randomWord`, `randomPhoneNumber`,
  `randomParagraph`, `randomAlphaNumeric`, and the in-place `scrambleArray`.
  Math.random() is a nondeterministic draw from [0, 1) (`Utils.Random`), and
  every property holds for all draws. The one-expression generators are
  functions of their draws. The loop generators are methods with loops,
  proved against their contracts. `scrambleArray` works in place on an
  `array` and is specified by the sequence of swaps it performs.
- **Records** (`records.dfy`, from `test.js`): `generateRandomWorkerData`
  and `generateRandomAvailabilityData`. Predicates state the shape of every
  generated field: length, alphabet, range and word structure.
- **Dataset** (`dataset.dfy`, from `test.js`): the bookkeeping of
  `generateData` and `clearAllData`, on values.
  - The three module-level counters `numAvails`, `numWorkersWithAvails` and
    `randomWorkerIds` live next to an abstract store: a map from worker id to
    its document, the availability documents in insertion order, and an id
    counter.
  - `Consistent` says the two views of the worker/availability relation
    agree: each worker's `availabilities` array is exactly the ids of the
    availabilities whose `worker` field names it, in insertion order.
  - The lemmas prove that this relation is kept, and what the counters hold
    after the selection loop.
- **Test** (`test.dfy`, from `test.js`): class `TestRun` holds the
  module-level variables and the store as fields. Its methods perform
  `clearAllData`, `generateData` and its selection loop imperatively. Each
  method's postcondition ties the new state to the Dataset function for the
  same step.

## Model

| member | source | states |
|---|---|---|
| Utils.RandomInt | utils.js:4-6 | the result lies in [lower, higher) when not inclusive and in [lower, higher] when inclusive; for an empty or negative width it lies between lower + width and lower |
| Utils.RandomIntCovers | utils.js:4-6 | every integer of the interval is produced by some draw, so the bounds of RandomInt are tight |
| Utils.RandomLetter | utils.js:8-12 | the result is an ASCII letter; it is upper case exactly when the second draw exceeds 0.5 |
| Utils.RandomLetterCovers | utils.js:8-12 | every letter of either case is produced by some pair of draws |
| Utils.RandomWord | utils.js:14-27 | every character is a letter; without `higher` the word has exactly `lower` characters (none for a negative count); with 0 <= lower < higher its length lies in [lower, higher); with lower < higher in general it is below max(higher, 1); with higher <= lower it lies between max(higher, 0) and max(lower, 0) |
| Utils.RandomPhoneNumber | utils.js:29-31 | the number has ten digits: 1000000000 <= v < 10000000000 |
| Utils.RandomParagraph | utils.js:33-40 | splitting the paragraph at spaces gives max(numWords, 1) words of 3 to 9 letters, and joining them with single spaces gives back the paragraph |
| Utils.SplitJoin | utils.js:33-40 | joining words that hold no space and splitting the result at spaces gives back the same words |
| Utils.DigitChar | utils.js:45 | a number in [0, 10) appended to a string adds the decimal digit of that value |
| Utils.RandomAlphaNumeric | utils.js:42-49 | the string has exactly numChars characters (none for a negative count), each a letter or a decimal digit |
| Utils.Swap | utils.js:59-61 | swapping via a temporary exchanges the two positions and leaves every other position unchanged; swapping a position with itself changes nothing |
| Utils.SwapPermutes | utils.js:59-61 | a swap preserves the multiset of elements |
| Utils.ApplySwaps | utils.js:55-62 | performing in-bounds swaps in order keeps the length |
| Utils.ApplySwapsPermutes | utils.js:55-62 | any sequence of in-bounds swaps yields a permutation of the input |
| Utils.ApplySwapsShort | utils.js:51-63 | an empty or one-element array is unchanged by the swaps |
| Utils.ScrambleArray | utils.js:51-63 | exactly arr.length swaps of in-bounds index pairs are performed in place; the array ends as those swaps applied to its old contents, a permutation of them, and unchanged when it has at most one element |
| Records.GeneratedEmailShape | test.js:276 | a generated email has exactly one '@', at index 12, followed by a 6-letter domain and ".com" |
| Records.RandomNotes | test.js:278 | notes are a paragraph of 3 to 19 words of 3 to 9 letters |
| Records.GenerateRandomWorkerData | test.js:274-301 | every field has its generated shape: email as above, password of 14 letters, the paragraphs, birth date in [0, 10^12) ms, 6-letter contact name, ten-digit phone numbers, rating in [0, 5), hours in [0, 100), 24 alphanumeric agency, phone code 1, names of 3 to 6 letters, and an address with line1, line2 and city of 3 to 6 letters, province and country of 3 to 5 letters and a 6-character alphanumeric postal code |
| Records.RandomFlagCovers | test.js:308-314 | each day flag, true when the draw exceeds 0.5, can come out either way |
| Records.GenerateRandomAvailabilityData | test.js:303-328 | the name has 3 to 9 letters; start and end hours lie in [0, 23) and minutes in [0, 59), with no order between start and end |
| Dataset.FreshIds | test.js:214 | a bulk insert of n documents returns n ids, the k-th being the k-th fresh id |
| Dataset.Clear | test.js:262-272 | after clearAllData both collections are empty, the three counters are reset, and the store is consistent |
| Dataset.InsertWorkers | test.js:203 | the bulk worker insert adds exactly the fresh ids to the stored workers, advances the id counter by the number of records, and leaves the availability collection and randomWorkerIds alone |
| Dataset.NewWorkers | test.js:203 | a bulk worker insert stores exactly the fresh ids, each with its generated record and an empty availabilities array |
| Dataset.NewAvailabilities | test.js:218-231 | the availabilities inserted for a worker are one per record, in order, each with a fresh id, the worker's id as back-reference and its record |
| Dataset.Attach | test.js:210-249 | attaching availabilities to a selected worker adds or removes no worker and appends one availability per record, each under a fresh id (its links are stated by AttachLinks and AttachConsistent) |
| Dataset.SelectionLoop | test.js:207-251 | the selection loop adds and removes no worker |
| Dataset.LinkedBothWays | test.js:218-245 | in a consistent store, an availability's id is in a worker's array exactly when its back-reference is that worker |
| Dataset.ChildIdsMember | test.js:220-242 | an id is among a worker's child ids exactly when some availability with that id points back to the worker |
| Dataset.InsertWorkersConsistent | test.js:203 | the bulk worker insert keeps the store consistent, stores each new record under its fresh id, and leaves earlier workers unchanged |
| Dataset.AttachConsistent | test.js:210-249 | attaching availabilities to one selected worker keeps the store consistent |
| Dataset.AttachLinks | test.js:218-245 | for one selected worker: one new availability per record, each pointing back to the worker; the worker's array becomes its old array followed by their ids in insertion order; every other worker unchanged |
| Dataset.SelectionConsistent | test.js:207-251 | the whole selection loop keeps the store consistent |
| Dataset.SelectionCounters | test.js:209-215 | the loop adds the number of selected workers to numWorkersWithAvails and the sum of their counts to numAvails, and appends the selected ids to randomWorkerIds |
| Dataset.SumNumsBounds | test.js:211-212 | with every count in [availLow, availHigh], the total lies between availLow and availHigh times the number of selected workers |
| Dataset.SumNumsCountsRecords | test.js:211-221 | with non-negative counts, the sum of the counts equals the number of availability records generated |
| Dataset.SelectionAvails | test.js:218-231 | the loop only appends to the availability collection, one document per generated record |
| Dataset.SelectedLength | test.js:213-215 | as many ids are recorded as workers are selected |
| Dataset.SelectedAt | test.js:207-215 | the k-th recorded id is the inserted id at the k-th selected position |
| Dataset.SelectedIndicesIncreasing | test.js:207-215 | the selected positions are recorded in increasing insertion order |
| Dataset.SelectedIndicesComplete | test.js:207-215 | every selected position is recorded |
| Dataset.SelectedDistinct | test.js:214-215 | distinct inserted ids give a randomWorkerIds without duplicates |
| Dataset.SelectionWorker | test.js:238-245 | over the loop a worker keeps its fields, and its array keeps its old entries followed by one entry per availability generated for it |
| Dataset.SelectionLeavesOthers | test.js:207-251 | a worker the loop does not select keeps its document |
| Dataset.InsertWorkersIds | test.js:203 | with every stored id below the counter, a bulk worker insert keeps them so and overwrites no stored worker |
| Dataset.AttachIds | test.js:210-249 | attaching availabilities keeps every stored id below the counter |
| Dataset.SelectionIds | test.js:207-251 | the whole selection loop keeps every stored id below the counter |
| Dataset.SelectedAmong | test.js:214-218 | every id pushed onto randomWorkerIds is one of the inserted ids |
| Dataset.GivenToDistinct | test.js:214-221 | with distinct ids, each worker receives exactly the records drawn at its own position |
| Dataset.GivenToAbsent | test.js:214-221 | a worker outside the loop's ids receives no records |
| Dataset.LoopWorker | test.js:207-245 | with distinct ids, the worker at position k keeps its fields and gains one array entry per record of its own pick |
| Dataset.FreshIdsDistinct | test.js:214 | the ids of a bulk insert are distinct |
| Dataset.InsertedWorkers | test.js:203-214 | after the bulk insert, the k-th inserted id holds the k-th generated record with an empty array |
| Dataset.Generated | test.js:196-251 | after generateData the stored workers are exactly the earlier ones plus one per generated record, under the fresh ids (its counters are stated by GeneratedSelection, its links by GeneratedConsistent) |
| Dataset.GeneratedConsistent | test.js:196-251 | generateData keeps the store consistent |
| Dataset.GeneratedKeepsEarlier | test.js:196-251 | with every stored id below the counter, generateData keeps them so and leaves every worker stored before it unchanged |
| Dataset.GeneratedSelection | test.js:196-251 | after generateData, randomWorkerIds is exactly the ids of the selected workers in insertion order, without duplicates; numWorkersWithAvails grows by its length and numAvails by the drawn counts |
| Dataset.GenerateAfterClear | test.js:209-215 | starting from reset counters with counts in [availLow, availHigh]: numWorkersWithAvails equals the length of randomWorkerIds, numAvails lies between availLow and availHigh times it, and for non-negative bounds equals the number of availabilities created |
| Dataset.AllGiven | test.js:209-213 | when every worker is selected, the number selected is the number of workers |
| Dataset.NoneGiven | test.js:209-213 | when no worker is selected, nothing is counted and no record is generated |
| Dataset.GeneratedAllSelected | test.js:207-215 | when every worker is selected, numWorkersWithAvails grows by the number of workers and randomWorkerIds lists one id per worker |
| Dataset.GeneratedNoneSelected | test.js:207-215 | when no worker is selected, the counters and the availability collection are unchanged and randomWorkerIds stays empty |
| Dataset.GeneratedWorkers | test.js:196-251 | after generateData the k-th generated worker is stored under the k-th fresh id with its record; its array holds as many ids as the count drawn for it, and none when it was not selected |
| Test.TestRun.constructor | test.js:50-57 | the counters start at zero, randomWorkerIds empty and availChance 0, over whatever the persistent database already holds, provided every id it holds is below the id counter, which the new object then keeps as IdsAhead |
| Test.TestRun.ClearAllData | test.js:262-272 | the new state is Clear of the old one: both collections dropped and the counters reset; availChance is kept |
| Test.TestRun.InsertWorkerDocs | test.js:203 | returns the fresh ids in order and stores the records as InsertWorkers does; keeps the id counter ahead of every stored id |
| Test.TestRun.InsertAvailabilityDocs | test.js:229-231 | returns the fresh ids in order and appends the availability documents, with back-references, to the collection; nothing else changes |
| Test.TestRun.LinkAvailabilities | test.js:238-247 | the worker's array becomes its old array followed by the new ids; every other worker and the rest of the state are unchanged |
| Test.TestRun.AttachAvailabilities | test.js:210-249 | draws a count in [availLow, availHigh], generates that many well-formed availability records, and leaves the state as Attach of the old one |
| Test.TestRun.SelectWorker | test.js:209-249 | one iteration: the worker is selected always when availChance is 1 or more and never when it is 0 or less, and for a chance strictly between 0 and 1 either outcome is allowed; the pick is well drawn and the new state is Attach of the old one for a selected worker and unchanged otherwise |
| Test.TestRun.SelectWorkers | test.js:207-251 | the loop leaves the state as SelectionLoop of the old one for the picks made; every count drawn is in [availLow, availHigh] with as many well-formed records; a chance of 1 or more selects every worker and one of 0 or less selects none |
| Test.TestRun.GenerateData | test.js:192-260 | generates numWorkers well-formed workers and leaves the state as Generated of the old one; the id counter stays ahead of every stored id and every worker stored before keeps its document; a consistent store stays consistent; randomWorkerIds is the selected ids without duplicates; a chance of 1 or more selects every worker and one of 0 or less selects none |
| Test.TestRun.PrepareTestSet | test.js:79-82 | one test set's preparation from any store contents: after setting availChance, clearAllData and generateData, the store is consistent; numWorkersWithAvails equals the length of randomWorkerIds, numAvails lies between availLow and availHigh times it, and for non-negative bounds equals the number of stored availabilities; a chance of 1 or more gives numWorkers selected workers (availLow times numWorkers availabilities when availLow = availHigh), one of 0 or less gives none and no availabilities |

## Left out

- The query measurements `testWorkerFindById`, `testWorkerFindByIdThenAvailFind` and `testAvailFindByWorkerId`, and `runTestSet` (test.js:96-190). They measure wall-clock time and average with floating-point arithmetic. `runTestSet` also scrambles `randomWorkerIds`; `Utils.ScrambleArray` models that scramble on its own, but nothing here calls it on the counters.
- The sweep loop of `run` (test.js:77-84). It steps a floating-point counter by 0.05, so its number of steps depends on IEEE rounding. `Test.TestRun.PrepareTestSet` models one step's data preparation for a given chance.
- Console and winston logging (test.js:3-11 and throughout), and the HTTP trigger and connection setup in index.js, which is not part of this model. The Mongoose schemas in worker.js and availability.js only shape the datatypes.
- The store itself:
  - MongoDB is replaced by the in-memory `workers` map and `avails` sequence.
  - ObjectIds are consecutive integers from a counter. This keeps the properties the code relies on: insertion order and uniqueness. Uniqueness holds because the counter starts above every id the database already holds (a requirement of `Test.TestRun.constructor`) and every insert advances it.
  - Store errors are not modelled. The source ignores the `err` of every callback and would crash on a failed insert or a missing worker. So `AttachAvailabilities` and `LinkAvailabilities` require the worker to exist. In `generateData` it always does, because the worker was just inserted.
- Test.TestRun.AttachAvailabilities: a count of 0 or less, possible only when availLow <= 0, makes the source call `insertMany` with an empty batch (test.js:229). The MongoDB driver rejects an empty batch, so `avails` is null and `avails.insertedIds` throws (test.js:230). The model treats this as an empty insert. Its results for availLow <= 0, such as `numAvails == |avails|` in `Test.TestRun.PrepareTestSet` with availLow = 0, describe a run the source does not complete.
- Concurrency: the per-worker attachments are `Promise`s that the source runs concurrently (test.js:227-257). The counter updates happen synchronously in worker order, as modelled. The store writes of different workers may interleave in the source; here they run one worker after the other. So the model fixes one order for the availability collection and its ids. Each worker's own array and back-references are the same in every interleaving.
- The collection drops in `clearAllData` (test.js:264-265) are not awaited in the source. The model treats them as complete when the counters are reset.
- Numbers: Math.random() returns exact reals, with no IEEE rounding. `rating` and `workedHours` are reals. `birthDate` is its epoch milliseconds rather than a `Date`. Probabilities and distributions are not modelled. For the generators the model states the set of possible outcomes; `Utils.RandomIntCovers`, `Utils.RandomLetterCovers` and `Records.RandomFlagCovers` show that set is exact. For the selection it also states the two certain cases: a chance of 1 or more selects every worker and one of 0 or less selects none.
- Raw inserts: worker documents inserted with `collection.insertMany` have no `availabilities` field. Mongoose reads it back as an empty array, which is how the model stores it.

Two bounds follow from `randomInt` excluding its upper end when `inclusive` is not passed:

- Availability hours and minutes are drawn with `randomInt(0, 23)` and `randomInt(0, 59)` (test.js:317-325), so they lie in [0, 23) and [0, 59).
- Paragraph words come from `randomWord(3, 10)` (utils.js:34-36), so they have 3 to 9 letters.
