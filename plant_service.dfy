/**
 * `PlantService`: the validation chain of `CreatePlant`, and the operations on
 * a user's collection (`MarkAsWatered`, `AddUserPlant`, `UpdateUserPlant`).
 * The plant repository's tables are fields of the service object; which of its
 * calls fail is given to each operation.  Times are seconds on one clock.
 */
module PlantService {
  import opened Wrappers
  import opened Uuids
  import opened Models
  import Notifications

  const PlantNotFound := "plant not found"
  const NotOwner := "user does not own this plant"
  const MarkWateredError := "failed to mark plant as watered"
  const RereadError := "failed to get updated user plant"
  const FavoriteError := "failed to check if plant is favorite"
  const AddUserPlantError := "failed to add user plant"
  const UpdateUserPlantError := "failed to update user plant"
  const CreatePlantError := "failed to create plant"

  const NameRequired := "plant name is required"
  const ScientificNameRequired := "scientific name is required"
  const DescriptionRequired := "description is required"
  const ImageRequired := "image URL is required"
  const WateringNotPositive := "watering frequency must be positive"
  const TemperatureOrder := "minimum temperature must be less than maximum temperature"
  const SoilRequired := "soil type is required"
  const FertilizerNotPositive := "fertilizer frequency must be positive"

  /** One day on the clock; the repository schedules the next watering whole days ahead. */
  const Day := 86400

  /** One guard of the validation chain: whether it passes, and the error it reports if not. */
  datatype Check = Check(passes: bool, message: string)

  /** The guards of `CreatePlant`, in the order they run. */
  function Checks(plant: Plant, care: CareInstructions): (cs: seq<Check>)
    ensures |cs| == 8
  {
    [ Check(plant.name != "", NameRequired),
      Check(plant.scientificName != "", ScientificNameRequired),
      Check(plant.description != "", DescriptionRequired),
      Check(plant.imageUrl != "", ImageRequired),
      Check(care.wateringFrequency > 0, WateringNotPositive),
      Check(care.temperature.min < care.temperature.max, TemperatureOrder),
      Check(care.soilType != "", SoilRequired),
      Check(care.fertilizerFrequency > 0, FertilizerNotPositive) ]
  }

  /** The message of the first guard that fails, if any. */
  function FirstFailure(cs: seq<Check>): (r: Option<string>)
    ensures r.None? <==> forall i :: 0 <= i < |cs| ==> cs[i].passes
  {
    if cs == [] then None
    else if !cs[0].passes then Some(cs[0].message)
    else
      var rest := FirstFailure(cs[1..]);
      assert forall i :: 1 <= i < |cs| ==> cs[i] == cs[1..][i - 1];
      rest
  }

  /** The reported message is that of a failing guard all of whose predecessors pass. */
  lemma {:induction false} FirstFailureIsFirst(cs: seq<Check>)
    requires FirstFailure(cs).Some?
    ensures exists i :: 0 <= i < |cs| && !cs[i].passes && cs[i].message == FirstFailure(cs).value
                        && forall j :: 0 <= j < i ==> cs[j].passes
  {
    if cs[0].passes {
      FirstFailureIsFirst(cs[1..]);
      var i :| 0 <= i < |cs[1..]| && !cs[1..][i].passes && cs[1..][i].message == FirstFailure(cs[1..]).value
               && forall j :: 0 <= j < i ==> cs[1..][j].passes;
      assert cs[i + 1] == cs[1..][i];
      forall j | 0 <= j < i + 1
        ensures cs[j].passes
      {
        if j > 0 {
          assert cs[j] == cs[1..][j - 1];
        }
      }
    } else {
      assert !cs[0].passes && cs[0].message == FirstFailure(cs).value;
    }
  }

  /** A plant and its care instructions that pass every guard. */
  predicate Valid(plant: Plant, care: CareInstructions)
  {
    plant.name != "" && plant.scientificName != "" && plant.description != "" && plant.imageUrl != ""
    && care.wateringFrequency > 0 && care.temperature.min < care.temperature.max
    && care.soilType != "" && care.fertilizerFrequency > 0
  }

  /**
   * `CreatePlant`: the first failing guard's message, or what the repository
   * returned for the plant (`created`, `None` when it fails).
   */
  function CreatePlant(plant: Plant, care: CareInstructions, created: Option<Plant>): (r: Result<Plant, string>)
    ensures r.Ok? ==> created == Some(r.value)
    ensures created.None? ==> r.Err?
  {
    match FirstFailure(Checks(plant, care))
    case Some(message) => Err(message)
    case None => if created.None? then Err(CreatePlantError) else Ok(created.value)
  }

  /** The guards pass together exactly for a valid plant. */
  lemma ValidIffAllPass(plant: Plant, care: CareInstructions)
    ensures Valid(plant, care) <==> forall i :: 0 <= i < |Checks(plant, care)| ==> Checks(plant, care)[i].passes
  {
    var cs := Checks(plant, care);
    if Valid(plant, care) {
      forall i | 0 <= i < |cs|
        ensures cs[i].passes
      {
        assert i == 0 || i == 1 || i == 2 || i == 3 || i == 4 || i == 5 || i == 6 || i == 7;
      }
    } else {
      assert !cs[0].passes || !cs[1].passes || !cs[2].passes || !cs[3].passes
             || !cs[4].passes || !cs[5].passes || !cs[6].passes || !cs[7].passes;
    }
  }

  /** The chain accepts exactly the valid plants, and then returns the repository's plant unchanged. */
  lemma CreatePlantAcceptsValid(plant: Plant, care: CareInstructions, created: Option<Plant>)
    ensures CreatePlant(plant, care, created).Ok? <==> Valid(plant, care) && created.Some?
    ensures CreatePlant(plant, care, created).Ok? ==> CreatePlant(plant, care, created).value == created.value
  {
    ValidIffAllPass(plant, care);
  }

  /** A failing guard reports its own message whatever the repository would do: the repository is not reached. */
  lemma RejectionIgnoresRepository(plant: Plant, care: CareInstructions, a: Option<Plant>, b: Option<Plant>)
    requires !Valid(plant, care)
    ensures CreatePlant(plant, care, a) == CreatePlant(plant, care, b)
    ensures CreatePlant(plant, care, a).Err?
    ensures exists i :: 0 <= i < 8 && !Checks(plant, care)[i].passes
                        && CreatePlant(plant, care, a).error == Checks(plant, care)[i].message
  {
    ValidIffAllPass(plant, care);
    FirstFailureIsFirst(Checks(plant, care));
  }

  /** The guards run in order: a plant with no name is reported as such, whatever else is wrong. */
  lemma NameCheckedFirst(plant: Plant, care: CareInstructions, created: Option<Plant>)
    requires plant.name == ""
    ensures CreatePlant(plant, care, created) == Err(NameRequired)
  {
  }

  /** Equal minimum and maximum temperatures are rejected, with the temperature message once the earlier guards pass. */
  lemma EqualTemperaturesRejected(plant: Plant, care: CareInstructions, created: Option<Plant>)
    requires care.temperature.min == care.temperature.max
    requires plant.name != "" && plant.scientificName != "" && plant.description != "" && plant.imageUrl != ""
    requires care.wateringFrequency > 0
    ensures CreatePlant(plant, care, created) == Err(TemperatureOrder)
  {
    var cs := Checks(plant, care);
    assert cs[0].passes && cs[1].passes && cs[2].passes && cs[3].passes && cs[4].passes && !cs[5].passes;
    FirstFailureIsFirst(cs);
    var i :| 0 <= i < |cs| && !cs[i].passes && cs[i].message == FirstFailure(cs).value
             && forall j :: 0 <= j < i ==> cs[j].passes;
    assert i == 5;
  }

  /** The user plant after the repository's watering: watered now, next due `frequency` days later. */
  function Watered(up: UserPlant, frequency: int, now: int): (w: UserPlant)
    ensures w.lastWatered == Some(now) && w.nextWatering == Some(now + frequency * Day)
    ensures w.location == up.location && w.id == up.id && w.userId == up.userId && w.plantId == up.plantId
    ensures w.createdAt == up.createdAt && w.updatedAt == now
  {
    up.(lastWatered := Some(now), nextWatering := Some(now + frequency * Day), updatedAt := now)
  }

  /** The catalog plant as one user sees it: their watering times and location, and their favourite flag. */
  function UserView(plant: Plant, up: UserPlant, favorite: bool): (p: Plant)
    ensures p.lastWatered == up.lastWatered && p.nextWatering == up.nextWatering && p.location == up.location
    ensures p.isFavorite == favorite
    ensures p.(lastWatered := plant.lastWatered, nextWatering := plant.nextWatering,
               location := plant.location, isFavorite := plant.isFavorite) == plant
  {
    plant.(lastWatered := up.lastWatered, nextWatering := up.nextWatering, location := up.location, isFavorite := favorite)
  }

  /** A plant just watered with a positive frequency is not due again before its next watering. */
  lemma WateredNotDueUntilNext(up: UserPlant, frequency: int, now: int, name: string, t: int)
    requires frequency > 0 && t <= now + frequency * Day
    ensures !Notifications.Due(Notifications.WateringEntry(up.userId, up.plantId, name,
                                                           Watered(up, frequency, now).nextWatering), t)
    ensures now < Watered(up, frequency, now).nextWatering.value
  {
  }

  /** Which repository calls fail during `MarkAsWatered`. */
  datatype WaterFaults = WaterFaults(mark: bool, reread: bool, favorite: bool)

  class Service {
    /** The catalog by plant id. */
    var plants: map<Uuid, Plant>
    /** The collection rows, keyed by user and plant. */
    var userPlants: map<(Uuid, Uuid), UserPlant>
    /** The favourites, as user and plant pairs. */
    var favorites: set<(Uuid, Uuid)>

    constructor (plants: map<Uuid, Plant>, userPlants: map<(Uuid, Uuid), UserPlant>, favorites: set<(Uuid, Uuid)>)
      ensures this.plants == plants && this.userPlants == userPlants && this.favorites == favorites
    {
      this.plants := plants;
      this.userPlants := userPlants;
      this.favorites := favorites;
    }

    /** Every collection row is stored under its own user and plant. */
    predicate Keyed()
      reads this
    {
      forall k :: k in userPlants ==> userPlants[k].userId == k.0 && userPlants[k].plantId == k.1
    }

    /**
     * `MarkAsWatered`: the plant must exist and be in the user's collection;
     * then the row is watered, read back, and merged into the catalog plant.
     */
    method MarkAsWatered(userId: Uuid, plantId: Uuid, now: int, faults: WaterFaults) returns (r: Result<Plant, string>)
      modifies this`userPlants
      ensures plantId !in plants ==> r == Err(PlantNotFound) && userPlants == old(userPlants)
      ensures plantId in plants && (userId, plantId) !in old(userPlants) ==>
                r == Err(NotOwner) && userPlants == old(userPlants)
      ensures plantId in plants && (userId, plantId) in old(userPlants) ==>
                var plant := plants[plantId];
                var w := Watered(old(userPlants)[(userId, plantId)], plant.careInstructions.wateringFrequency, now);
                if faults.mark then r == Err(MarkWateredError) && userPlants == old(userPlants)
                else userPlants == old(userPlants)[(userId, plantId) := w]
                     && r == (if faults.reread then Err(RereadError)
                              else if faults.favorite then Err(FavoriteError)
                              else Ok(UserView(plant, w, (userId, plantId) in favorites)))
      ensures Keyed() <==> old(Keyed())
    {
      if plantId !in plants {
        return Err(PlantNotFound);
      }
      var plant := plants[plantId];
      if (userId, plantId) !in userPlants {
        return Err(NotOwner);
      }
      if faults.mark {
        return Err(MarkWateredError);
      }
      userPlants := userPlants[(userId, plantId) := Watered(userPlants[(userId, plantId)], plant.careInstructions.wateringFrequency, now)];
      if faults.reread {
        return Err(RereadError);
      }
      var userPlant := userPlants[(userId, plantId)];
      plant := plant.(lastWatered := userPlant.lastWatered, nextWatering := userPlant.nextWatering,
                      location := userPlant.location);
      if faults.favorite {
        return Err(FavoriteError);
      }
      plant := plant.(isFavorite := (userId, plantId) in favorites);
      return Ok(plant);
    }

    /**
     * `AddUserPlant`: the plant must exist; the row is inserted, or, for a plant
     * already in the collection, given the new location and an empty watering
     * schedule.  `id` is the id a new row receives.
     */
    method AddUserPlant(userId: Uuid, plantId: Uuid, location: string, id: Uuid, now: int, fails: bool)
      returns (r: Result<(), string>)
      modifies this`userPlants
      ensures plantId !in plants ==> r == Err(PlantNotFound) && userPlants == old(userPlants)
      ensures plantId in plants && fails ==> r == Err(AddUserPlantError) && userPlants == old(userPlants)
      ensures plantId in plants && !fails ==>
                r == Ok(())
                && userPlants == old(userPlants)[(userId, plantId) := Upserted(old(userPlants), userId, plantId, location, id, now)]
      ensures old(Keyed()) ==> Keyed()
    {
      if plantId !in plants {
        return Err(PlantNotFound);
      }
      if fails {
        return Err(AddUserPlantError);
      }
      userPlants := userPlants[(userId, plantId) := Upserted(userPlants, userId, plantId, location, id, now)];
      return Ok(());
    }

    /** `UpdateUserPlant`: the row must exist; only its location (and update time) changes. */
    method UpdateUserPlant(userId: Uuid, plantId: Uuid, location: string, now: int, fails: bool)
      returns (r: Result<(), string>)
      modifies this`userPlants
      ensures (userId, plantId) !in old(userPlants) ==> r == Err(NotOwner) && userPlants == old(userPlants)
      ensures (userId, plantId) in old(userPlants) && fails ==> r == Err(UpdateUserPlantError) && userPlants == old(userPlants)
      ensures (userId, plantId) in old(userPlants) && !fails ==>
                r == Ok(())
                && userPlants == old(userPlants)[(userId, plantId) := Relocated(old(userPlants)[(userId, plantId)], location, now)]
      ensures Keyed() <==> old(Keyed())
    {
      if (userId, plantId) !in userPlants {
        return Err(NotOwner);
      }
      if fails {
        return Err(UpdateUserPlantError);
      }
      var userPlant := userPlants[(userId, plantId)];
      userPlant := userPlant.(location := Some(location));
      userPlants := userPlants[(userId, plantId) := userPlant.(updatedAt := now)];
      return Ok(());
    }
  }

  /** The row `AddUserPlant` leaves behind: the existing row's id and creation time are kept, the rest is reset. */
  function Upserted(rows: map<(Uuid, Uuid), UserPlant>, userId: Uuid, plantId: Uuid, location: string, id: Uuid, now: int)
    : (up: UserPlant)
    ensures up.userId == userId && up.plantId == plantId && up.location == Some(location)
    ensures up.lastWatered.None? && up.nextWatering.None? && up.updatedAt == now
    ensures (userId, plantId) in rows ==> up.id == rows[(userId, plantId)].id && up.createdAt == rows[(userId, plantId)].createdAt
    ensures (userId, plantId) !in rows ==> up.id == id && up.createdAt == now
  {
    if (userId, plantId) in rows then
      rows[(userId, plantId)].(userId := userId, plantId := plantId, location := Some(location),
                               lastWatered := None, nextWatering := None, updatedAt := now)
    else UserPlant(id, userId, plantId, Some(location), None, None, now, now)
  }

  /** The row after `UpdateUserPlant`. */
  function Relocated(up: UserPlant, location: string, now: int): (moved: UserPlant)
    ensures moved.location == Some(location) && moved.updatedAt == now
    ensures moved.(location := up.location, updatedAt := up.updatedAt) == up
  {
    up.(location := Some(location), updatedAt := now)
  }

  /** An added plant is never due: adding clears its watering schedule. */
  lemma AddedPlantNotDue(rows: map<(Uuid, Uuid), UserPlant>, userId: Uuid, plantId: Uuid, location: string,
                         id: Uuid, now: int, name: string, t: int)
    ensures !Notifications.Due(Notifications.WateringEntry(userId, plantId, name,
                               Upserted(rows, userId, plantId, location, id, now).nextWatering), t)
  {
  }

  /** Moving a plant keeps its watering schedule, so it is due exactly when it was before. */
  lemma RelocatedKeepsSchedule(up: UserPlant, location: string, now: int, name: string, t: int)
    ensures Notifications.Due(Notifications.WateringEntry(up.userId, up.plantId, name, Relocated(up, location, now).nextWatering), t)
            <==> Notifications.Due(Notifications.WateringEntry(up.userId, up.plantId, name, up.nextWatering), t)
  {
  }
}
