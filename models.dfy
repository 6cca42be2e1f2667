/**
 * The content tree's document schemas: Category, Course, Module, Section,
 * Quiz, Question and Answer. Each schema is a datatype for the stored
 * document and a `New...` function that does what constructing and
 * validating a document does: trim the trimmed String paths, fill in the
 * defaults, and refuse a missing required path or a value outside an enum
 * (reported for the first failing path in schema order). Every document
 * also gets `createdAt`/`updatedAt` from the clock reading `now`.
 *
 * Parent references: Answer.questionId -> Question.quizId -> Quiz.moduleId
 * (-> Module.courseId) or Quiz.courseId.
 */
module Models {
  import opened Wrappers
  import opened Text

  type Id = string

  datatype ValidationError = Required(path: string) | NotInEnum(path: string, value: string)

  /** A trimmed String path marked `required`: the value is trimmed first, and an absent or empty result is refused. */
  function RequiredText(path: string, value: Option<string>): (r: Result<string, ValidationError>)
    ensures r.Success? <==> value.Some? && Trim(value.value) != ""
    ensures r.Success? ==> r.value == Trim(value.value) && IsTrimmed(r.value)
    ensures r.Failure? ==> r.error == Required(path)
  {
    TrimIdempotent(value.GetOr(""));
    if value.Some? && Trim(value.value) != "" then Success(Trim(value.value)) else Failure(Required(path))
  }

  /** An optional trimmed String path. */
  function OptionalText(value: Option<string>): (r: Option<string>)
    ensures r.Some? <==> value.Some?
    ensures r.Some? ==> r.value == Trim(value.value) && IsTrimmed(r.value)
  {
    TrimIdempotent(value.GetOr(""));
    match value
    case None => None
    case Some(s) => Some(Trim(s))
  }

  /** A required reference path. */
  function RequiredRef(path: string, value: Option<Id>): (r: Result<Id, ValidationError>)
    ensures r.Success? <==> value.Some?
    ensures r.Success? ==> r.value == value.value
    ensures r.Failure? ==> r.error == Required(path)
  {
    match value
    case None => Failure(Required(path))
    case Some(v) => Success(v)
  }

  predicate IsTrimmed(s: string) {
    Trim(s) == s
  }

  /** The value held by a required trimmed String path of a stored document. */
  predicate RequiredTextOk(s: string) {
    s != "" && IsTrimmed(s)
  }

  predicate OptionalTextOk(s: Option<string>) {
    s.Some? ==> IsTrimmed(s.value)
  }

  // ----- Course (models/Course.ts) -----

  datatype CourseStatus = Draft | Published

  function CourseStatusName(s: CourseStatus): string {
    match s
    case Draft => "draft"
    case Published => "published"
  }

  /** The `enum: ['draft', 'published']` check. */
  function ParseCourseStatus(s: string): (r: Option<CourseStatus>)
    ensures r.Some? ==> CourseStatusName(r.value) == s
    ensures r.None? ==> forall st :: CourseStatusName(st) != s
  {
    if s == "draft" then Some(Draft)
    else if s == "published" then Some(Published)
    else None
  }

  datatype Course = Course(
    id: Id,
    title: string,
    description: string,
    categoryId: Id,
    instructorId: Id,
    price: real,
    thumbnail: Option<string>,
    status: CourseStatus,
    modules: seq<Id>,
    finalExam: Option<Id>,
    createdAt: int,
    updatedAt: int)

  /** The sort key of `sort({ createdAt: -1 })`. */
  function CreatedAt(c: Course): int {
    c.createdAt
  }

  /** The filter `{ instructorId: owner }`. */
  function OwnedBy(owner: Id): Course -> bool {
    (c: Course) => c.instructorId == owner
  }

  /** The filter `{ instructorId: owner, status: 'published' }`. */
  function PublishedBy(owner: Id): Course -> bool {
    (c: Course) => c.instructorId == owner && c.status == Published
  }

  predicate ValidCourse(c: Course) {
    RequiredTextOk(c.title) && RequiredTextOk(c.description)
  }

  /**
   * `new Course({...})` followed by validation: title and description are
   * required and trimmed, both references are required, price defaults to
   * 0, status defaults to draft and must be in its enum, and the module
   * list starts empty with no final exam.
   */
  function NewCourse(
    id: Id, title: Option<string>, description: Option<string>, categoryId: Option<Id>,
    instructorId: Option<Id>, price: Option<real>, thumbnail: Option<string>, status: Option<string>,
    now: int): (r: Result<Course, ValidationError>)
    ensures r.Success? <==>
              && title.Some? && Trim(title.value) != ""
              && description.Some? && Trim(description.value) != ""
              && categoryId.Some? && instructorId.Some?
              && (status.Some? ==> ParseCourseStatus(status.value).Some?)
    ensures r.Success? ==>
              var c := r.value;
              && ValidCourse(c)
              && c.id == id && c.title == Trim(title.value) && c.description == Trim(description.value)
              && c.categoryId == categoryId.value && c.instructorId == instructorId.value
              && c.price == price.GetOr(0.0) && c.thumbnail == thumbnail
              && c.status == (if status.None? then Draft else ParseCourseStatus(status.value).value)
              && c.modules == [] && c.finalExam.None?
              && c.createdAt == now && c.updatedAt == now
  {
    match RequiredText("title", title)
    case Failure(e) => Failure(e)
    case Success(t) =>
      match RequiredText("description", description)
      case Failure(e) => Failure(e)
      case Success(d) =>
        match RequiredRef("categoryId", categoryId)
        case Failure(e) => Failure(e)
        case Success(cat) =>
          match RequiredRef("instructorId", instructorId)
          case Failure(e) => Failure(e)
          case Success(owner) =>
            var st := if status.None? then Some(Draft) else ParseCourseStatus(status.value);
            if st.None? then Failure(NotInEnum("status", status.value))
            else Success(Course(id, t, d, cat, owner, price.GetOr(0.0), thumbnail, st.value, [], None, now, now))
  }

  /** Validating a stored course's own values again gives back the same course: the schema is stable on its documents. */
  lemma CourseRevalidates(c: Course)
    requires ValidCourse(c) && c.modules == [] && c.finalExam.None? && c.createdAt == c.updatedAt
    ensures NewCourse(c.id, Some(c.title), Some(c.description), Some(c.categoryId), Some(c.instructorId),
                      Some(c.price), c.thumbnail, Some(CourseStatusName(c.status)), c.createdAt) == Success(c)
  {
  }

  // ----- Category (models/Category.ts) -----

  datatype Category = Category(
    id: Id,
    name: string,
    description: Option<string>,
    instructorId: Id,
    createdAt: int,
    updatedAt: int)

  function CategoryCreatedAt(c: Category): int {
    c.createdAt
  }

  predicate ValidCategory(c: Category) {
    RequiredTextOk(c.name) && OptionalTextOk(c.description)
  }

  /** `new Category({...})` followed by validation: the name is required and trimmed, the description optional, the owner required. */
  function NewCategory(id: Id, name: Option<string>, description: Option<string>, instructorId: Option<Id>, now: int)
    : (r: Result<Category, ValidationError>)
    ensures r.Success? <==> name.Some? && Trim(name.value) != "" && instructorId.Some?
    ensures r.Success? ==>
              var c := r.value;
              && ValidCategory(c)
              && c.id == id && c.name == Trim(name.value) && c.description == OptionalText(description)
              && c.instructorId == instructorId.value && c.createdAt == now && c.updatedAt == now
  {
    match RequiredText("name", name)
    case Failure(e) => Failure(e)
    case Success(n) =>
      match RequiredRef("instructorId", instructorId)
      case Failure(e) => Failure(e)
      case Success(owner) => Success(Category(id, n, OptionalText(description), owner, now, now))
  }

  /** No unique index is declared on the name: two categories of one owner may share a name and both validate. */
  lemma CategoryNamesNotUnique(owner: Id, now: int)
    ensures NewCategory("a", Some("Math"), None, Some(owner), now).Success?
    ensures NewCategory("b", Some("Math"), None, Some(owner), now).Success?
    ensures NewCategory("a", Some("Math"), None, Some(owner), now).value.name
            == NewCategory("b", Some("Math"), None, Some(owner), now).value.name
  {
    assert !IsSpace('M') && !IsSpace('h');
    assert TrimStart("Math") == "Math";
    assert TrimEnd("Math") == "Math";
  }

  // ----- Module (models/Module.ts) -----

  datatype Module = Module(
    id: Id,
    title: string,
    description: Option<string>,
    courseId: Id,
    order: int,
    sections: seq<Id>,
    quiz: Option<Id>,
    createdAt: int,
    updatedAt: int)

  predicate ValidModule(m: Module) {
    RequiredTextOk(m.title) && OptionalTextOk(m.description)
  }

  /** `new Module({...})`: title required and trimmed, parent course required, order defaulting to 0, no sections and no quiz yet. */
  function NewModule(id: Id, title: Option<string>, description: Option<string>, courseId: Option<Id>, order: Option<int>, now: int)
    : (r: Result<Module, ValidationError>)
    ensures r.Success? <==> title.Some? && Trim(title.value) != "" && courseId.Some?
    ensures r.Success? ==>
              var m := r.value;
              && ValidModule(m)
              && m.id == id && m.title == Trim(title.value) && m.courseId == courseId.value
              && m.order == order.GetOr(0) && m.sections == [] && m.quiz.None?
              && m.createdAt == now && m.updatedAt == now
  {
    match RequiredText("title", title)
    case Failure(e) => Failure(e)
    case Success(t) =>
      match RequiredRef("courseId", courseId)
      case Failure(e) => Failure(e)
      case Success(parent) => Success(Module(id, t, OptionalText(description), parent, order.GetOr(0), [], None, now, now))
  }

  // ----- Section (models/Section.ts) -----

  datatype SectionType = FileSection | YoutubeSection

  function SectionTypeName(t: SectionType): string {
    match t
    case FileSection => "file"
    case YoutubeSection => "youtube"
  }

  /** The `enum: ['file', 'youtube']` check. */
  function ParseSectionType(s: string): (r: Option<SectionType>)
    ensures r.Some? ==> SectionTypeName(r.value) == s
    ensures r.None? ==> forall t :: SectionTypeName(t) != s
  {
    if s == "file" then Some(FileSection)
    else if s == "youtube" then Some(YoutubeSection)
    else None
  }

  datatype FileType = Pdf | Word | Ppt

  function FileTypeName(t: FileType): string {
    match t
    case Pdf => "pdf"
    case Word => "word"
    case Ppt => "ppt"
  }

  /** The `enum: ['pdf', 'word', 'ppt']` check. */
  function ParseFileType(s: string): (r: Option<FileType>)
    ensures r.Some? ==> FileTypeName(r.value) == s
    ensures r.None? ==> forall t :: FileTypeName(t) != s
  {
    if s == "pdf" then Some(Pdf)
    else if s == "word" then Some(Word)
    else if s == "ppt" then Some(Ppt)
    else None
  }

  /** A section; the file and YouTube fields are all optional and not tied to its type. */
  datatype Section = Section(
    id: Id,
    title: string,
    description: Option<string>,
    moduleId: Id,
    kind: SectionType,
    order: int,
    fileUrl: Option<string>,
    fileName: Option<string>,
    fileType: Option<FileType>,
    youtubeUrl: Option<string>,
    createdAt: int,
    updatedAt: int)

  predicate ValidSection(s: Section) {
    RequiredTextOk(s.title) && OptionalTextOk(s.description)
  }

  /** `new Section({...})`: title required and trimmed, parent module required, type required and in its enum, order defaulting to 0, file type (when given) in its enum. */
  function NewSection(
    id: Id, title: Option<string>, description: Option<string>, moduleId: Option<Id>, kind: Option<string>,
    order: Option<int>, fileUrl: Option<string>, fileName: Option<string>, fileType: Option<string>,
    youtubeUrl: Option<string>, now: int): (r: Result<Section, ValidationError>)
    ensures r.Success? <==>
              && title.Some? && Trim(title.value) != "" && moduleId.Some?
              && kind.Some? && ParseSectionType(kind.value).Some?
              && (fileType.Some? ==> ParseFileType(fileType.value).Some?)
    ensures r.Success? ==>
              var s := r.value;
              && ValidSection(s)
              && s.id == id && s.title == Trim(title.value) && s.moduleId == moduleId.value
              && SectionTypeName(s.kind) == kind.value && s.order == order.GetOr(0)
              && s.fileUrl == fileUrl && s.fileName == fileName && s.youtubeUrl == youtubeUrl
              && (s.fileType.Some? <==> fileType.Some?)
              && (s.fileType.Some? ==> FileTypeName(s.fileType.value) == fileType.value)
  {
    match RequiredText("title", title)
    case Failure(e) => Failure(e)
    case Success(t) =>
      match RequiredRef("moduleId", moduleId)
      case Failure(e) => Failure(e)
      case Success(parent) =>
        if kind.None? then Failure(Required("type"))
        else if ParseSectionType(kind.value).None? then Failure(NotInEnum("type", kind.value))
        else if fileType.Some? && ParseFileType(fileType.value).None? then Failure(NotInEnum("fileType", fileType.value))
        else
          var ft := if fileType.None? then None else ParseFileType(fileType.value);
          Success(Section(id, t, OptionalText(description), parent, ParseSectionType(kind.value).value,
                          order.GetOr(0), fileUrl, fileName, ft, youtubeUrl, now, now))
  }

  /** A YouTube section may carry file fields and no URL: the schema does not tie the payload to the type. */
  lemma SectionPayloadNotTiedToType(moduleId: Id, now: int)
    ensures NewSection("s", Some("Intro"), None, Some(moduleId), Some("youtube"), None,
                       Some("/uploads/1_a.pdf"), Some("a.pdf"), Some("pdf"), None, now).Success?
  {
    assert !IsSpace('I') && !IsSpace('o');
    assert TrimStart("Intro") == "Intro";
    assert TrimEnd("Intro") == "Intro";
  }

  // ----- Quiz (models/Quiz.ts) -----

  /** A quiz; `moduleId` marks a module quiz and `courseId` a final exam, but neither is required. */
  datatype Quiz = Quiz(
    id: Id,
    title: string,
    description: Option<string>,
    moduleId: Option<Id>,
    courseId: Option<Id>,
    isFinalExam: bool,
    questions: seq<Id>,
    totalPoints: int,
    passingScore: int,
    timeLimit: Option<int>,
    createdAt: int,
    updatedAt: int)

  predicate ValidQuiz(q: Quiz) {
    RequiredTextOk(q.title) && OptionalTextOk(q.description)
  }

  const DefaultPassingScore: int := 60

  /** `new Quiz({...})`: title required and trimmed, both parents optional, not a final exam by default, 0 total points and a passing score of 60 by default, time limit (minutes) optional. */
  function NewQuiz(
    id: Id, title: Option<string>, description: Option<string>, moduleId: Option<Id>, courseId: Option<Id>,
    isFinalExam: Option<bool>, totalPoints: Option<int>, passingScore: Option<int>, timeLimit: Option<int>,
    now: int): (r: Result<Quiz, ValidationError>)
    ensures r.Success? <==> title.Some? && Trim(title.value) != ""
    ensures r.Success? ==>
              var q := r.value;
              && ValidQuiz(q)
              && q.id == id && q.title == Trim(title.value)
              && q.moduleId == moduleId && q.courseId == courseId
              && q.isFinalExam == isFinalExam.GetOr(false) && q.questions == []
              && q.totalPoints == totalPoints.GetOr(0) && q.passingScore == passingScore.GetOr(DefaultPassingScore)
              && q.timeLimit == timeLimit
  {
    match RequiredText("title", title)
    case Failure(e) => Failure(e)
    case Success(t) =>
      Success(Quiz(id, t, OptionalText(description), moduleId, courseId, isFinalExam.GetOr(false), [],
                   totalPoints.GetOr(0), passingScore.GetOr(DefaultPassingScore), timeLimit, now, now))
  }

  /** The schema enforces neither "exactly one parent" nor "at least one parent". */
  lemma QuizParentsUnconstrained(moduleId: Id, courseId: Id, now: int)
    ensures NewQuiz("q", Some("Quiz"), None, Some(moduleId), Some(courseId), None, None, None, None, now).Success?
    ensures NewQuiz("q", Some("Quiz"), None, None, None, None, None, None, None, now).Success?
  {
    assert !IsSpace('Q') && !IsSpace('z');
    assert TrimStart("Quiz") == "Quiz";
    assert TrimEnd("Quiz") == "Quiz";
  }

  // ----- Question (models/Question.ts) -----

  datatype QuestionType = Qcm | TrueFalse | MultipleCorrect

  function QuestionTypeName(t: QuestionType): string {
    match t
    case Qcm => "qcm"
    case TrueFalse => "true_false"
    case MultipleCorrect => "multiple_correct"
  }

  /** The `enum: ['qcm', 'true_false', 'multiple_correct']` check. */
  function ParseQuestionType(s: string): (r: Option<QuestionType>)
    ensures r.Some? ==> QuestionTypeName(r.value) == s
    ensures r.None? ==> forall t :: QuestionTypeName(t) != s
  {
    if s == "qcm" then Some(Qcm)
    else if s == "true_false" then Some(TrueFalse)
    else if s == "multiple_correct" then Some(MultipleCorrect)
    else None
  }

  datatype Question = Question(
    id: Id,
    question: string,
    kind: QuestionType,
    quizId: Id,
    order: int,
    points: int,
    answers: seq<Id>,
    createdAt: int,
    updatedAt: int)

  predicate ValidQuestion(q: Question) {
    RequiredTextOk(q.question)
  }

  /** `new Question({...})`: text required and trimmed, type required and in its enum, parent quiz required, order defaulting to 0 and points to 1. */
  function NewQuestion(
    id: Id, question: Option<string>, kind: Option<string>, quizId: Option<Id>, order: Option<int>,
    points: Option<int>, now: int): (r: Result<Question, ValidationError>)
    ensures r.Success? <==>
              question.Some? && Trim(question.value) != "" && kind.Some? && ParseQuestionType(kind.value).Some?
              && quizId.Some?
    ensures r.Success? ==>
              var q := r.value;
              && ValidQuestion(q)
              && q.id == id && q.question == Trim(question.value) && QuestionTypeName(q.kind) == kind.value
              && q.quizId == quizId.value && q.order == order.GetOr(0) && q.points == points.GetOr(1)
              && q.answers == []
  {
    match RequiredText("question", question)
    case Failure(e) => Failure(e)
    case Success(text) =>
      if kind.None? then Failure(Required("type"))
      else if ParseQuestionType(kind.value).None? then Failure(NotInEnum("type", kind.value))
      else
        match RequiredRef("quizId", quizId)
        case Failure(e) => Failure(e)
        case Success(parent) =>
          Success(Question(id, text, ParseQuestionType(kind.value).value, parent, order.GetOr(0), points.GetOr(1), [], now, now))
  }

  // ----- Answer (models/Answer.ts) -----

  datatype Answer = Answer(
    id: Id,
    answer: string,
    questionId: Id,
    isCorrect: bool,
    order: int,
    createdAt: int,
    updatedAt: int)

  predicate ValidAnswer(a: Answer) {
    RequiredTextOk(a.answer)
  }

  /** `new Answer({...})`: text required and trimmed, parent question required, not correct by default, order defaulting to 0. */
  function NewAnswer(id: Id, answer: Option<string>, questionId: Option<Id>, isCorrect: Option<bool>, order: Option<int>, now: int)
    : (r: Result<Answer, ValidationError>)
    ensures r.Success? <==> answer.Some? && Trim(answer.value) != "" && questionId.Some?
    ensures r.Success? ==>
              var a := r.value;
              && ValidAnswer(a)
              && a.id == id && a.answer == Trim(answer.value) && a.questionId == questionId.value
              && a.isCorrect == isCorrect.GetOr(false) && a.order == order.GetOr(0)
  {
    match RequiredText("answer", answer)
    case Failure(e) => Failure(e)
    case Success(text) =>
      match RequiredRef("questionId", questionId)
      case Failure(e) => Failure(e)
      case Success(parent) => Success(Answer(id, text, parent, isCorrect.GetOr(false), order.GetOr(0), now, now))
  }
}
