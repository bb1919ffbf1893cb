/** The body of an update request (todo-api/src/dto/update-todo.dto.ts). */
module UpdateDto {

  import opened Wrappers
  import opened Json
  import opened Entity

  /** A validated update request: every field optional, none defaulted. */
  datatype UpdateTodoDto = UpdateTodoDto(text: Option<string>, completed: Option<bool>, priority: Option<Priority>)

  /** `text`, when present, is a string of at most 500 characters; the empty string passes. */
  predicate TextAccepted(body: Body) {
    "text" in body ==> body["text"].Str? && |body["text"].s| <= MaxTextLength
  }

  /** `completed`, when present, is a boolean. */
  predicate CompletedAccepted(body: Body) {
    "completed" in body ==> body["completed"].Bool?
  }

  /** `priority`, when present, is one of the three names. */
  predicate PriorityAccepted(body: Body) {
    "priority" in body ==> body["priority"].Str? && ParsePriority(body["priority"].s).Some?
  }

  function UpdateErrors(body: Body): (r: set<string>)
    ensures r == {} <==>
      TextAccepted(body) && CompletedAccepted(body) && PriorityAccepted(body)
      && Extraneous(body, {"text", "completed", "priority"}) == {}
  {
    Extraneous(body, {"text", "completed", "priority"})
    + (if TextAccepted(body) then {} else {"text"})
    + (if CompletedAccepted(body) then {} else {"completed"})
    + (if PriorityAccepted(body) then {} else {"priority"})
  }

  /**
    Validates an update body: accepted exactly when it has no errors; a field is present in
    the result exactly when it is present in the body, with the value sent.
   */
  function ParseUpdate(body: Body): (r: Result<UpdateTodoDto, ValidationError>)
    ensures r.Success? <==> UpdateErrors(body) == {}
    ensures r.Failure? ==> r.error.fields != {}
    ensures r.Success? ==>
      && (r.value.text.Some? <==> "text" in body)
      && (r.value.text.Some? ==> body["text"] == Str(r.value.text.value) && |r.value.text.value| <= MaxTextLength)
      && (r.value.completed.Some? <==> "completed" in body)
      && (r.value.completed.Some? ==> body["completed"] == Bool(r.value.completed.value))
      && (r.value.priority.Some? <==> "priority" in body)
      && (r.value.priority.Some? ==> body["priority"] == Str(PriorityName(r.value.priority.value)))
  {
    var errors := UpdateErrors(body);
    if errors != {} then Failure(Invalid(errors))
    else
      Success(UpdateTodoDto(
        if "text" in body then Some(body["text"].s) else None,
        if "completed" in body then Some(body["completed"].b) else None,
        if "priority" in body then ParsePriority(body["priority"].s) else None))
  }

  /** The body that carries exactly the fields present in `dto`. */
  function UpdateBody(dto: UpdateTodoDto): (r: Body)
    ensures "text" in r <==> dto.text.Some?
    ensures "completed" in r <==> dto.completed.Some?
    ensures "priority" in r <==> dto.priority.Some?
  {
    (if dto.text.Some? then map["text" := Str(dto.text.value)] else map[])
    + (if dto.completed.Some? then map["completed" := Bool(dto.completed.value)] else map[])
    + (if dto.priority.Some? then map["priority" := Str(PriorityName(dto.priority.value))] else map[])
  }

  /**
    Encoding an update and validating it gives the update back exactly when its text, if any,
    is at most 500 characters; in particular the empty update object is valid.
   */
  lemma UpdateRoundTrip(dto: UpdateTodoDto)
    ensures ParseUpdate(UpdateBody(dto)).Success? <==> (dto.text.Some? ==> |dto.text.value| <= MaxTextLength)
    ensures (dto.text.Some? ==> |dto.text.value| <= MaxTextLength) ==> ParseUpdate(UpdateBody(dto)) == Success(dto)
    ensures ParseUpdate(map[]) == Success(UpdateTodoDto(None, None, None))
  {
    var body := UpdateBody(dto);
    assert Extraneous(body, {"text", "completed", "priority"}) == {};
    assert Extraneous(map[], {"text", "completed", "priority"}) == {};
    if dto.priority.Some? {
      PriorityRoundTrip(dto.priority.value);
    }
  }
}
