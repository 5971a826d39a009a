/**
 * The two synthetic record generators of the benchmark driver:
 * generateRandomWorkerData and generateRandomAvailabilityData. Each builds a
 * fixed-shape record whose fields come from the generators of Utils, so the
 * length, alphabet and range of every field follows from their contracts.
 *
 * Number fields are exact (`int`, or `real` for the two fields computed as
 * Math.random() * c); the `Date` of birthDate is kept as its milliseconds
 * since the epoch.
 */
module Records {
  import opened Utils

  /** A store-assigned document id (a Mongo ObjectId). */
  type Id = nat

  datatype Address = Address(
    line1: string,
    line2: string,
    city: string,
    province: string,
    postalCode: string,
    country: string)

  /** A worker record as generated, before the store gives it an id and an
      availabilities array. */
  datatype WorkerData = WorkerData(
    email: string,
    password: string,
    notes: string,
    birthDate: int,
    emergencyContactName: string,
    emergencyContactNumber: int,
    rating: real,
    workedHours: real,
    agency: string,
    phoneCode: int,
    phoneNumber: int,
    firstName: string,
    lastName: string,
    about: string,
    address: Address)

  /** The weekly repeat map: one flag per day, Sunday to Saturday. */
  datatype RepeatDays = RepeatDays(
    sunday: bool,
    monday: bool,
    tuesday: bool,
    wednesday: bool,
    thursday: bool,
    friday: bool,
    saturday: bool)

  datatype TimeOfDay = TimeOfDay(hour: int, minute: int)

  /** An availability record as generated, before the worker back-reference
      is added to it. */
  datatype AvailabilityData = AvailabilityData(
    name: string,
    repeatDays: RepeatDays,
    startTime: TimeOfDay,
    endTime: TimeOfDay)

  /** A word of letters whose length lies in [lo, hi). */
  predicate WordIn(s: string, lo: int, hi: int)
  {
    lo <= |s| < hi && AllLetters(s)
  }

  /** An alphanumeric string of exactly n characters. */
  predicate AlphaNumericOf(s: string, n: int)
  {
    |s| == n && AllAlphaNumeric(s)
  }

  /** A paragraph of lo to hi - 1 words of 3 to 9 letters, separated by
      single spaces. */
  predicate ParagraphOf(s: string, lo: int, hi: int)
  {
    var words := Split(s);
    lo <= |words| < hi &&
    (forall k :: 0 <= k < |words| ==> WordIn(words[k], 3, 10)) &&
    Join(words) == s
  }

  predicate IsPhoneNumber(v: int)
  {
    1000000000 <= v < 10000000000
  }

  /** `<12 alphanumerics>@<6 letters>.com` */
  predicate IsGeneratedEmail(e: string)
  {
    |e| == 23 &&
    AlphaNumericOf(e[..12], 12) &&
    e[12] == '@' &&
    WordIn(e[13..19], 6, 7) &&
    e[19..] == ".com"
  }

  predicate IsGeneratedAddress(a: Address)
  {
    WordIn(a.line1, 3, 7) &&
    WordIn(a.line2, 3, 7) &&
    WordIn(a.city, 3, 7) &&
    WordIn(a.province, 3, 6) &&
    AlphaNumericOf(a.postalCode, 6) &&
    WordIn(a.country, 3, 6)
  }

  /** Every field of a worker as generateRandomWorkerData leaves it. */
  predicate IsGeneratedWorker(w: WorkerData)
  {
    IsGeneratedEmail(w.email) &&
    WordIn(w.password, 14, 15) &&
    ParagraphOf(w.notes, 3, 20) &&
    0 <= w.birthDate < 1000000000000 &&
    WordIn(w.emergencyContactName, 6, 7) &&
    IsPhoneNumber(w.emergencyContactNumber) &&
    0.0 <= w.rating < 5.0 &&
    0.0 <= w.workedHours < 100.0 &&
    AlphaNumericOf(w.agency, 24) &&
    w.phoneCode == 1 &&
    IsPhoneNumber(w.phoneNumber) &&
    WordIn(w.firstName, 3, 7) &&
    WordIn(w.lastName, 3, 7) &&
    ParagraphOf(w.about, 3, 20) &&
    IsGeneratedAddress(w.address)
  }

  /** Hours are drawn with randomInt(0, 23) and minutes with randomInt(0, 59):
      both bounds are exclusive. */
  predicate IsGeneratedTime(t: TimeOfDay)
  {
    0 <= t.hour < 23 && 0 <= t.minute < 59
  }

  /** Every field of an availability as generateRandomAvailabilityData leaves
      it; start and end are not ordered. */
  predicate IsGeneratedAvailability(a: AvailabilityData)
  {
    WordIn(a.name, 3, 10) &&
    IsGeneratedTime(a.startTime) &&
    IsGeneratedTime(a.endTime)
  }

  /** A generated email holds exactly one '@', at index 12, and its domain
      ends in ".com". */
  lemma GeneratedEmailShape(e: string)
    requires IsGeneratedEmail(e)
    ensures forall i :: 0 <= i < |e| ==> (e[i] == '@' <==> i == 12)
    ensures e[13..] == e[13..19] + ".com"
  {
    forall i | 0 <= i < |e|
      ensures e[i] == '@' <==> i == 12
    {
      if i < 12 {
        assert e[i] == e[..12][i];
      } else if 13 <= i < 19 {
        assert e[i] == e[13..19][i - 13];
      } else if 19 <= i {
        assert e[i] == e[19..][i - 19];
      }
    }
    assert e[13..] == e[13..19] + e[19..];
  }

  /** randomParagraph(randomInt(3, 20)) */
  method RandomNotes() returns (s: string)
    ensures ParagraphOf(s, 3, 20)
  {
    var r := Random();
    s := RandomParagraph(RandomInt(3, 20, false, r));
  }

  /** generateRandomWorkerData(): one worker with every field drawn from
      the Utils generators. */
  method GenerateRandomWorkerData() returns (w: WorkerData)
    ensures IsGeneratedWorker(w)
  {
    var local := RandomAlphaNumeric(12);
    var domain := RandomWord(6, None);
    var email := local + "@" + domain + ".com";
    assert email[..12] == local && email[13..19] == domain && email[19..] == ".com";
    var password := RandomWord(14, None);
    var notes := RandomNotes();
    var rBirth := Random();
    var birthDate := RandomInt(0, 1000000000000, false, rBirth);
    var emergencyContactName := RandomWord(6, None);
    var rEmergency := Random();
    var emergencyContactNumber := RandomPhoneNumber(rEmergency);
    var rRating := Random();
    var rating: real := rRating as real * 5.0;
    var rHours := Random();
    var workedHours: real := rHours as real * 100.0;
    var agency := RandomAlphaNumeric(24);
    var phoneCode := 1;
    var rPhone := Random();
    var phoneNumber := RandomPhoneNumber(rPhone);
    var firstName := RandomWord(3, Some(7));
    var lastName := RandomWord(3, Some(7));
    var about := RandomNotes();
    var line1 := RandomWord(3, Some(7));
    var line2 := RandomWord(3, Some(7));
    var city := RandomWord(3, Some(7));
    var province := RandomWord(3, Some(6));
    var postalCode := RandomAlphaNumeric(6);
    var country := RandomWord(3, Some(6));
    w := WorkerData(
      email, password, notes, birthDate, emergencyContactName,
      emergencyContactNumber, rating, workedHours, agency, phoneCode,
      phoneNumber, firstName, lastName, about,
      Address(line1, line2, city, province, postalCode, country));
  }

  /** One day flag for its draw: Math.random() > 0.5. */
  function RandomFlag(r: Unit): bool
  {
    r > 0.5
  }

  /** Each day flag can come out either way. */
  lemma RandomFlagCovers(b: bool)
    ensures exists r: Unit :: RandomFlag(r) == b
  {
    var r: Unit := if b then 0.75 else 0.25;
    assert RandomFlag(r) == b;
  }

  /** generateRandomAvailabilityData(): a name, seven day flags and two times
      of day. */
  method GenerateRandomAvailabilityData() returns (a: AvailabilityData)
    ensures IsGeneratedAvailability(a)
  {
    var name := RandomWord(3, Some(10));
    var rSunday := Random();
    var sunday := RandomFlag(rSunday);
    var rMonday := Random();
    var monday := RandomFlag(rMonday);
    var rTuesday := Random();
    var tuesday := RandomFlag(rTuesday);
    var rWednesday := Random();
    var wednesday := RandomFlag(rWednesday);
    var rThursday := Random();
    var thursday := RandomFlag(rThursday);
    var rFriday := Random();
    var friday := RandomFlag(rFriday);
    var rSaturday := Random();
    var saturday := RandomFlag(rSaturday);
    var r1 := Random();
    var r2 := Random();
    var startTime := TimeOfDay(RandomInt(0, 23, false, r1), RandomInt(0, 59, false, r2));
    var r3 := Random();
    var r4 := Random();
    var endTime := TimeOfDay(RandomInt(0, 23, false, r3), RandomInt(0, 59, false, r4));
    a := AvailabilityData(
      name,
      RepeatDays(sunday, monday, tuesday, wednesday, thursday, friday, saturday),
      startTime, endTime);
  }
}
