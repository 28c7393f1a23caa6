/** The course catalogue routes: create (always unpublished), the public
    listing of published courses, lookup, update, the publish toggle and
    delete. The course collection is a table that the handlers change in
    place. */
module Catalog {
  import opened Results
  import opened CourseModel
  import Lists

  /** The request body, with JavaScript's `undefined` as None. */
  datatype CodeInput = CodeInput(html: Option<string>, css: Option<string>, js: Option<string>)

  datatype MetadataInput = MetadataInput(totalSections: Option<int>, totalQuizzes: Option<int>,
                                         sectionIds: Option<seq<string>>,
                                         quizIds: Option<seq<string>>)

  datatype CourseInput = CourseInput(
    title: Option<string>,
    description: Option<string>,
    thumbnail: Option<string>,
    difficulty: Option<string>,
    badgeType: Option<string>,
    courseCode: Option<CodeInput>,
    metadata: Option<MetadataInput>)

  /** `{ html: courseCode.html || '', ... }`: a missing part becomes empty. */
  function CodeOf(c: CodeInput): (r: CourseCode)
    ensures c.html.None? ==> r.html == ""
    ensures c.css.None? ==> r.css == ""
    ensures c.js.None? ==> r.js == ""
    ensures c.html.Some? ==> r.html == c.html.value
    ensures c.css.Some? ==> r.css == c.css.value
    ensures c.js.Some? ==> r.js == c.js.value
  {
    CourseCode(OrElse(c.html, ""), OrElse(c.css, ""), OrElse(c.js, ""))
  }

  /** `{ totalSections: metadata.totalSections || 0, ... }`: a missing count
      becomes 0 and a missing id list becomes []. The counts are copied as
      given, whatever the lists hold. */
  function MetadataOf(m: MetadataInput): (r: Metadata)
    ensures m.totalSections.None? ==> r.totalSections == 0
    ensures m.totalQuizzes.None? ==> r.totalQuizzes == 0
    ensures m.sectionIds.None? ==> r.sectionIds == []
    ensures m.quizIds.None? ==> r.quizIds == []
    ensures m.totalSections.Some? ==> r.totalSections == m.totalSections.value
    ensures m.sectionIds.Some? ==> r.sectionIds == m.sectionIds.value
    ensures m.totalQuizzes.Some? ==> r.totalQuizzes == m.totalQuizzes.value
    ensures m.quizIds.Some? ==> r.quizIds == m.quizIds.value
  {
    Metadata(OrElse(m.totalSections, 0), OrElse(m.totalQuizzes, 0),
             OrElse(m.sectionIds, []), OrElse(m.quizIds, []))
  }

  /** Reading `courseCode.html` or `metadata.totalSections` off a missing
      object throws before the store is touched. */
  predicate BodyReadable(input: CourseInput)
  {
    input.courseCode.Some? && input.metadata.Some?
  }

  /** The document the create handler builds: defaults filled in, validated
      by the schema, and unpublished whatever the body says. */
  function Created(id: ObjectId, input: CourseInput, createdBy: ObjectId, now: Time): (r: Result<Course>)
    ensures r.Ok? <==> BodyReadable(input) && Provided(input.title) && Provided(input.description)
                       && ParseDifficulty(input.difficulty).Ok? && ParseTier(input.badgeType).Ok?
    ensures r.Ok? ==> && r.value.id == id && !r.value.isPublished
                      && r.value.metadata == MetadataOf(input.metadata.value)
                      && r.value.courseCode == CodeOf(input.courseCode.value)
                      && r.value.createdBy == Some(createdBy)
  {
    if !BodyReadable(input) then Err(BadRequest("missing courseCode or metadata"))
    else NewCourse(id, input.title, input.description, input.thumbnail, input.difficulty,
                   input.badgeType, CodeOf(input.courseCode.value),
                   MetadataOf(input.metadata.value), Some(false), Some(createdBy), now)
  }

  /** The document after an update: given top-level fields replace the stored
      ones, absent ones are kept, code and metadata are rewritten as a whole
      with the same defaults as on create, and updatedAt moves to now. */
  function Updated(c: Course, input: CourseInput, now: Time): (r: Result<Course>)
    requires BodyReadable(input)
    ensures r.Ok? <==> (input.difficulty.None? || ParseDifficulty(input.difficulty).Ok?)
                       && (input.badgeType.None? || ParseTier(input.badgeType).Ok?)
    ensures r.Ok? ==> && r.value.id == c.id && r.value.isPublished == c.isPublished
                      && r.value.createdAt == c.createdAt && r.value.updatedAt == now
                      && r.value.title == OrElse(input.title, c.title)
                      && r.value.description == OrElse(input.description, c.description)
                      && r.value.thumbnail == OrElse(input.thumbnail, c.thumbnail)
                      && r.value.createdBy == c.createdBy
                      && r.value.metadata == MetadataOf(input.metadata.value)
                      && r.value.courseCode == CodeOf(input.courseCode.value)
                      && (input.difficulty.None? ==> r.value.difficulty == c.difficulty)
                      && (input.difficulty.Some? ==> DifficultyName(r.value.difficulty) == input.difficulty.value)
                      && (input.badgeType.None? ==> r.value.badgeType == c.badgeType)
                      && (input.badgeType.Some? ==> TierName(r.value.badgeType) == input.badgeType.value)
  {
    var d := if input.difficulty.None? then Ok(c.difficulty) else ParseDifficulty(input.difficulty);
    var t := if input.badgeType.None? then Ok(c.badgeType) else ParseTier(input.badgeType);
    if d.Err? then Err(d.error)
    else if t.Err? then Err(t.error)
    else Ok(c.(title := OrElse(input.title, c.title),
               description := OrElse(input.description, c.description),
               thumbnail := OrElse(input.thumbnail, c.thumbnail),
               difficulty := d.value, badgeType := t.value,
               courseCode := CodeOf(input.courseCode.value),
               metadata := MetadataOf(input.metadata.value),
               updatedAt := now))
  }

  /** The ids the public listing and the platinum check see. */
  function Published(courses: map<ObjectId, Course>): (ids: set<ObjectId>)
    ensures forall id :: id in ids <==> id in courses && courses[id].isPublished
  {
    set id | id in courses && courses[id].isPublished
  }

  /** The table after `course.isPublished = !course.isPublished` on a stored course. */
  function Toggled(courses: map<ObjectId, Course>, id: ObjectId): (r: map<ObjectId, Course>)
    requires id in courses
    ensures r.Keys == courses.Keys
    ensures r[id].isPublished == !courses[id].isPublished
    ensures r[id].(isPublished := courses[id].isPublished) == courses[id]
    ensures forall other :: other in courses && other != id ==> r[other] == courses[other]
  {
    courses[id := courses[id].(isPublished := !courses[id].isPublished)]
  }

  /** What `save()` checks on a stored course: the `required` title and
      description. The enum fields always hold a schema value here. */
  predicate Saveable(c: Course)
  {
    c.title != "" && c.description != ""
  }

  /** An update may store an empty title, since it runs no validators; the
      course is then stuck: the publish toggle's save refuses it. */
  lemma EmptiedTitleBlocksToggle(c: Course, input: CourseInput, now: Time)
    requires BodyReadable(input) && input.title == Some("")
    ensures Updated(c, input, now).Ok? ==> !Saveable(Updated(c, input, now).value)
  {
  }

  /** A course built by the create route can always be toggled. */
  lemma CreatedIsSaveable(id: ObjectId, input: CourseInput, createdBy: ObjectId, now: Time)
    ensures Created(id, input, createdBy, now).Ok? ==> Saveable(Created(id, input, createdBy, now).value)
  {
  }

  /** Toggling twice restores the table. */
  lemma ToggleTwice(courses: map<ObjectId, Course>, id: ObjectId)
    requires id in courses
    ensures Toggled(Toggled(courses, id), id) == courses
  {
  }

  /** Publishing a draft adds exactly one to the published count, and
      unpublishing takes exactly one away. */
  lemma {:induction false} ToggleMovesPublishedCount(courses: map<ObjectId, Course>, id: ObjectId)
    requires id in courses
    ensures courses[id].isPublished ==> |Published(Toggled(courses, id))| == |Published(courses)| - 1
    ensures !courses[id].isPublished ==> |Published(Toggled(courses, id))| == |Published(courses)| + 1
  {
    var before, after := Published(courses), Published(Toggled(courses, id));
    if courses[id].isPublished {
      assert after == before - {id};
    } else {
      assert after == before + {id};
    }
  }

  class CourseCatalog {
    var courses: map<ObjectId, Course>

    /** Each course is stored under its own id. */
    ghost predicate Valid()
      reads this
    {
      forall id :: id in courses ==> courses[id].id == id
    }

    constructor ()
      ensures Valid() && courses == map[]
    {
      courses := map[];
    }

    /** `Course.countDocuments({ isPublished: true })`. */
    function PublishedCount(): (n: nat)
      reads this
      ensures n <= |courses.Keys|
    {
      Lists.SubsetCardinality(Published(courses), courses.Keys);
      |Published(courses)|
    }

    /** GET /: exactly the published courses. */
    function ListPublished(): (r: map<ObjectId, Course>)
      reads this
      ensures r.Keys == Published(courses)
      ensures forall id :: id in r ==> r[id] == courses[id] && r[id].isPublished
    {
      map id | id in Published(courses) :: courses[id]
    }

    /** GET /:id. */
    function Get(id: ObjectId): (r: Result<Course>)
      reads this
      ensures r.Ok? <==> id in courses
      ensures r.Ok? ==> r.value == courses[id]
      ensures r.Err? ==> r.error == NotFound("course")
    {
      if id in courses then Ok(courses[id]) else Err(NotFound("course"))
    }

    /** POST /: store the built document under a new id; a taken id is the
        duplicate-key error of the unique `_id` index. */
    method Create(id: ObjectId, input: CourseInput, createdBy: ObjectId, now: Time)
      returns (r: Result<Course>)
      requires Valid()
      modifies this
      ensures Valid()
      ensures r.Ok? <==> Created(id, input, createdBy, now).Ok? && id !in old(courses)
      ensures r.Ok? ==> r == Created(id, input, createdBy, now)
                        && courses == old(courses)[id := r.value]
                        && !r.value.isPublished
      ensures r.Err? ==> courses == old(courses)
    {
      var doc := Created(id, input, createdBy, now);
      if doc.Err? {
        return Err(doc.error);
      }
      if id in courses {
        return Err(DuplicateKey("_id"));
      }
      courses := courses[id := doc.value];
      r := doc;
    }

    /** PUT /:id. The body is read first (a missing object is a 400 even for
        an unknown id); an unknown id is a 404 and changes nothing. */
    method Update(id: ObjectId, input: CourseInput, now: Time) returns (r: Result<Course>)
      requires Valid()
      modifies this
      ensures Valid()
      ensures !BodyReadable(input) ==> r.Err? && r.error.BadRequest? && courses == old(courses)
      ensures BodyReadable(input) && id !in old(courses) ==>
                r == Err(NotFound("course")) && courses == old(courses)
      ensures BodyReadable(input) && id in old(courses) ==>
                r == Updated(old(courses)[id], input, now)
                && courses == (if r.Ok? then old(courses)[id := r.value] else old(courses))
    {
      if !BodyReadable(input) {
        return Err(BadRequest("missing courseCode or metadata"));
      }
      if id !in courses {
        return Err(NotFound("course"));
      }
      r := Updated(courses[id], input, now);
      if r.Ok? {
        courses := courses[id := r.value];
      }
    }

    /** PUT /:id/publish: flip the flag of a stored course and `save()` it.
        The save re-runs the schema validators on the stored document, so a
        course whose title or description an update emptied is refused and
        left as it is. */
    method TogglePublish(id: ObjectId) returns (r: Result<Course>)
      requires Valid()
      modifies this
      ensures Valid()
      ensures id !in old(courses) ==> r == Err(NotFound("course")) && courses == old(courses)
      ensures id in old(courses) && !Saveable(old(courses)[id]) ==>
                r.Err? && r.error.ValidationFailed? && courses == old(courses)
      ensures id in old(courses) && Saveable(old(courses)[id]) ==>
                courses == Toggled(old(courses), id) && r == Ok(courses[id])
    {
      if id !in courses {
        return Err(NotFound("course"));
      }
      var course := courses[id];
      if course.title == "" {
        return Err(ValidationFailed("title"));
      }
      if course.description == "" {
        return Err(ValidationFailed("description"));
      }
      course := course.(isPublished := !course.isPublished);
      courses := courses[id := course];
      r := Ok(course);
    }

    /** DELETE /:id. */
    method Delete(id: ObjectId) returns (r: Result<ObjectId>)
      requires Valid()
      modifies this
      ensures Valid()
      ensures r.Ok? <==> id in old(courses)
      ensures r.Err? ==> r.error == NotFound("course")
      ensures courses == old(courses) - {id}
    {
      if id !in courses {
        return Err(NotFound("course"));
      }
      courses := courses - {id};
      r := Ok(id);
    }
  }
}
