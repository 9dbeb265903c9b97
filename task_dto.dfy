/**
 * The body of a create-task request and the validation rules its fields
 * must pass before it reaches the task service.
 */
module TaskDto {
  import opened Common
  import opened TaskEntity

  /** A field of a parsed JSON request body. `Other` is any number, boolean, array or object. */
  datatype JsonValue = Absent | Null | Str(s: string) | Other

  /** The raw request body, one JSON value per declared property. */
  datatype CreateTaskBody = CreateTaskBody(title: JsonValue, description: JsonValue, status: JsonValue)

  /**
   * The status a validated input carries: left out, sent as an explicit
   * null (the optional-field rule lets null through unchecked), or a status.
   */
  datatype StatusInput = Unset | NullStatus | Status(value: TaskStatus)

  /** The validated input the service receives. */
  datatype CreateTaskDto = CreateTaskDto(title: string, description: Option<string>, status: StatusInput)

  const TitleNotString := "title must be a string"
  const TitleRequired := "Title is required"
  const DescriptionNotString := "description must be a string"
  const StatusInvalid := "Status must be PENDING, IN_PROGRESS, or COMPLETED"

  /** An optional property is validated only when it is neither absent nor null. */
  predicate Given(v: JsonValue) {
    !v.Absent? && !v.Null?
  }

  /** The non-empty check: absent, null and the empty string count as empty. */
  predicate Empty(v: JsonValue) {
    v.Absent? || v.Null? || v == Str("")
  }

  /** The messages of the constraints the title fails: it must be a string and not empty. */
  function TitleErrors(v: JsonValue): set<string> {
    (if v.Str? then {} else {TitleNotString}) + (if Empty(v) then {TitleRequired} else {})
  }

  /** The messages of the constraints an optional description fails. */
  function DescriptionErrors(v: JsonValue): set<string> {
    if Given(v) && !v.Str? then {DescriptionNotString} else {}
  }

  /** The messages of the constraints an optional status fails: it must name a status. */
  function StatusErrors(v: JsonValue): set<string> {
    if Given(v) && !(v.Str? && ParseStatus(v.s).Some?) then {StatusInvalid} else {}
  }

  /**
   * Runs every constraint of the body and either builds the validated input
   * or rejects the body with the messages of all failed constraints.
   */
  function ValidateCreateTask(body: CreateTaskBody): (r: Result<CreateTaskDto, set<string>>)
    ensures r.Success? <==>
      && body.title.Str? && body.title.s != ""
      && (Given(body.description) ==> body.description.Str?)
      && (Given(body.status) ==> body.status.Str? && ParseStatus(body.status.s).Some?)
    ensures r.Success? ==>
      && r.value.title == body.title.s
      && r.value.title != ""
      && (r.value.description.Some? <==> body.description.Str?)
      && (r.value.description.Some? ==> r.value.description.value == body.description.s)
      && (r.value.status.Unset? <==> body.status.Absent?)
      && (r.value.status.NullStatus? <==> body.status.Null?)
      && (r.value.status.Status? <==> Given(body.status))
      && (r.value.status.Status? ==> StatusName(r.value.status.value) == body.status.s)
    ensures r.Failure? ==> r.error != {}
    ensures r.Failure? ==> (TitleRequired in r.error <==> Empty(body.title))
    ensures r.Failure? ==> (TitleNotString in r.error <==> !body.title.Str?)
    ensures r.Failure? ==> (DescriptionNotString in r.error <==> Given(body.description) && !body.description.Str?)
    ensures r.Failure? ==> (StatusInvalid in r.error <==>
      Given(body.status) && !(body.status.Str? && ParseStatus(body.status.s).Some?))
  {
    var errors := TitleErrors(body.title) + DescriptionErrors(body.description) + StatusErrors(body.status);
    if errors != {} then
      Failure(errors)
    else
      var description := if body.description.Str? then Some(body.description.s) else None;
      var status :=
        if body.status.Absent? then Unset
        else if body.status.Null? then NullStatus
        else Status(ParseStatus(body.status.s).value);
      Success(CreateTaskDto(body.title.s, description, status))
  }

  /** A body without status or description, with a non-empty title, is accepted as is. */
  lemma TitleOnlyIsAccepted(title: string)
    requires title != ""
    ensures ValidateCreateTask(CreateTaskBody(Str(title), Absent, Absent))
         == Success(CreateTaskDto(title, None, Unset))
  {
  }
}
