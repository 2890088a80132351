/**
 * The records of internal/models/models.go that the services read and write.
 * Times are whole numbers on one abstract clock; Go pointers that may be nil
 * are `Option`s.
 */
module Models {
  import opened Wrappers
  import opened Uuids

  /** `SunlightLevel` is a Go string type: the catalog may hold any value. */
  type SunlightLevel = string

  const SunlightLow: SunlightLevel := "LOW"
  const SunlightMedium: SunlightLevel := "MEDIUM"
  const SunlightHigh: SunlightLevel := "HIGH"

  datatype TemperatureRange = TemperatureRange(min: int, max: int)

  datatype CareInstructions = CareInstructions(
    wateringFrequency: int,
    sunlight: SunlightLevel,
    temperature: TemperatureRange,
    humidity: string,
    soilType: string,
    fertilizerFrequency: int,
    additionalNotes: string)

  datatype Plant = Plant(
    id: Uuid,
    name: string,
    scientificName: string,
    description: string,
    imageUrl: string,
    careInstructions: CareInstructions,
    price: Option<real>,
    shopId: Option<string>,
    isFavorite: bool,
    location: Option<string>,
    lastWatered: Option<int>,
    nextWatering: Option<int>,
    createdAt: int,
    updatedAt: int)

  /** A plant in one user's collection. */
  datatype UserPlant = UserPlant(
    id: Uuid,
    userId: Uuid,
    plantId: Uuid,
    location: Option<string>,
    lastWatered: Option<int>,
    nextWatering: Option<int>,
    createdAt: int,
    updatedAt: int)

  /** `PlantQuestionnaire`; an anonymous questionnaire has no user. */
  datatype Questionnaire = Questionnaire(
    id: Uuid,
    userId: Option<Uuid>,
    sunlightPreference: SunlightLevel,
    petFriendly: bool,
    careLevel: int,
    preferredLocation: Option<string>,
    additionalPreferences: Option<string>,
    createdAt: int)

  /** `DetailedQuestionnaireRequest`, the extended submission form. */
  datatype DetailedQuestionnaireRequest = DetailedQuestionnaireRequest(
    sunlightPreference: SunlightLevel,
    petFriendly: bool,
    careLevel: int,
    preferredLocation: Option<string>,
    hasChildren: bool,
    plantSize: string,
    floweringPreference: bool,
    airPurifying: bool,
    wateringFrequency: string,
    experienceLevel: string,
    additionalPreferences: Option<string>)

  /** `PlantRecommendation`; the store assigns its id and creation time. */
  datatype Recommendation = Recommendation(
    questionnaireId: Uuid,
    plantId: Uuid,
    score: real,
    reasoning: string)

  datatype ChatSession = ChatSession(
    id: Uuid,
    userId: Uuid,
    title: string,
    createdAt: int,
    lastUsed: int)

  /** A persisted chat turn; `role` is "user" or "assistant". */
  datatype ChatMessage = ChatMessage(
    id: Uuid,
    sessionId: Uuid,
    userId: Uuid,
    role: string,
    content: string,
    createdAt: int)

  datatype NotificationType = Watering

  /** A notification as the service builds it; the store assigns id and times. */
  datatype Notification = Notification(
    userId: Uuid,
    plantId: Uuid,
    kind: NotificationType,
    message: string,
    isRead: bool)

  datatype User = User(
    id: Uuid,
    name: string,
    email: string,
    passwordHash: string,
    profileImageUrl: Option<string>,
    language: string,
    notificationsEnabled: bool,
    locations: seq<string>,
    favoritePlantIds: seq<string>,
    ownedPlantIds: seq<string>,
    createdAt: int,
    updatedAt: int)
}
