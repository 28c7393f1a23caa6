/** The Course schema: its two enums with their defaults, the course code,
    the progress-tracking metadata and the publication flag. */
module CourseModel {
  import opened Results

  /** MongoDB ids and timestamps are opaque here: ids are their string form,
      times are whatever clock value the caller passes in. */
  type ObjectId = string
  type Time = nat

  datatype Difficulty = Beginner | Intermediate | Advanced
  datatype BadgeTier = Bronze | Silver | Gold

  function DifficultyName(d: Difficulty): string
  {
    match d
    case Beginner => "beginner"
    case Intermediate => "intermediate"
    case Advanced => "advanced"
  }

  function TierName(t: BadgeTier): string
  {
    match t
    case Bronze => "bronze"
    case Silver => "silver"
    case Gold => "gold"
  }

  /** A `difficulty` value as the schema stores it: absent gives the default
      beginner, one of the three names gives that level, anything else fails
      the enum validator. */
  function ParseDifficulty(s: Option<string>): (r: Result<Difficulty>)
    ensures s.None? ==> r == Ok(Beginner)
    ensures s.Some? ==> (r.Ok? <==> s.value in {"beginner", "intermediate", "advanced"})
    ensures s.Some? && r.Ok? ==> DifficultyName(r.value) == s.value
    ensures r.Err? ==> r.error == ValidationFailed("difficulty")
  {
    match s
    case None => Ok(Beginner)
    case Some(name) =>
      if name == "beginner" then Ok(Beginner)
      else if name == "intermediate" then Ok(Intermediate)
      else if name == "advanced" then Ok(Advanced)
      else Err(ValidationFailed("difficulty"))
  }

  /** A `badgeType` value: absent gives bronze, one of bronze/silver/gold gives
      that tier, anything else fails validation. */
  function ParseTier(s: Option<string>): (r: Result<BadgeTier>)
    ensures s.None? ==> r == Ok(Bronze)
    ensures s.Some? ==> (r.Ok? <==> s.value in {"bronze", "silver", "gold"})
    ensures s.Some? && r.Ok? ==> TierName(r.value) == s.value
    ensures r.Err? ==> r.error == ValidationFailed("badgeType")
  {
    match s
    case None => Ok(Bronze)
    case Some(name) =>
      if name == "bronze" then Ok(Bronze)
      else if name == "silver" then Ok(Silver)
      else if name == "gold" then Ok(Gold)
      else Err(ValidationFailed("badgeType"))
  }

  /** Every level and tier is read back from its own name. */
  lemma NamesRoundTrip(d: Difficulty, t: BadgeTier)
    ensures ParseDifficulty(Some(DifficultyName(d))) == Ok(d)
    ensures ParseTier(Some(TierName(t))) == Ok(t)
  {
  }

  datatype CourseCode = CourseCode(html: string, css: string, js: string)

  /** Section and quiz bookkeeping. The counts are plain numbers: nothing ties
      them to the lengths of the id lists. */
  datatype Metadata = Metadata(totalSections: int, totalQuizzes: int,
                               sectionIds: seq<string>, quizIds: seq<string>)

  datatype Course = Course(
    id: ObjectId,
    title: string,
    description: string,
    thumbnail: string,
    difficulty: Difficulty,
    badgeType: BadgeTier,
    courseCode: CourseCode,
    metadata: Metadata,
    isPublished: bool,
    createdBy: Option<ObjectId>,
    createdAt: Time,
    updatedAt: Time)

  const DefaultThumbnail: string := "https://via.placeholder.com/300x200"

  /** The metadata a document gets when none is given. */
  const EmptyMetadata: Metadata := Metadata(0, 0, [], [])

  const EmptyCode: CourseCode := CourseCode("", "", "")

  /** Mongoose's `required` on a string: present and not empty. */
  predicate Provided(s: Option<string>)
  {
    s.Some? && s.value != ""
  }

  /** A new Course document: `required` title and description, the enum
      validators, the defaults for thumbnail, difficulty, badgeType and
      isPublished, and both timestamps set to the creation time. */
  function NewCourse(id: ObjectId, title: Option<string>, description: Option<string>,
                     thumbnail: Option<string>, difficulty: Option<string>,
                     badgeType: Option<string>, code: CourseCode, metadata: Metadata,
                     isPublished: Option<bool>, createdBy: Option<ObjectId>,
                     now: Time): (r: Result<Course>)
    ensures r.Ok? <==> Provided(title) && Provided(description)
                       && ParseDifficulty(difficulty).Ok? && ParseTier(badgeType).Ok?
    ensures r.Ok? ==>
      && r.value.id == id
      && r.value.title == title.value && r.value.description == description.value
      && r.value.thumbnail == OrElse(thumbnail, DefaultThumbnail)
      && (difficulty.None? ==> r.value.difficulty == Beginner)
      && (difficulty.Some? ==> DifficultyName(r.value.difficulty) == difficulty.value)
      && (badgeType.None? ==> r.value.badgeType == Bronze)
      && (badgeType.Some? ==> TierName(r.value.badgeType) == badgeType.value)
      && r.value.createdBy == createdBy
      && r.value.isPublished == OrElse(isPublished, false)
      && r.value.courseCode == code && r.value.metadata == metadata
      && r.value.createdAt == now && r.value.updatedAt == now
  {
    if !Provided(title) then Err(ValidationFailed("title"))
    else if !Provided(description) then Err(ValidationFailed("description"))
    else match (ParseDifficulty(difficulty), ParseTier(badgeType))
      case (Err(e), _) => Err(e)
      case (_, Err(e)) => Err(e)
      case (Ok(d), Ok(t)) =>
        Ok(Course(id, title.value, description.value, OrElse(thumbnail, DefaultThumbnail),
                  d, t, code, metadata, OrElse(isPublished, false), createdBy, now, now))
  }
}
