/** The body of a create request (todo-api/src/dto/create-todo.dto.ts). */
module CreateDto {

  import opened Wrappers
  import opened Json
  import opened Entity

  /** A validated create request, its default applied. */
  datatype CreateTodoDto = CreateTodoDto(text: string, priority: Priority)

  /** `text` is required: a string, not empty, at most 500 characters. */
  predicate TextAccepted(body: Body) {
    "text" in body && body["text"].Str? && body["text"].s != "" && |body["text"].s| <= MaxTextLength
  }

  /** `priority` is optional; when present it is one of the three names. */
  predicate PriorityAccepted(body: Body) {
    "priority" in body ==> body["priority"].Str? && ParsePriority(body["priority"].s).Some?
  }

  /** The properties of a create body that fail validation, unknown ones included. */
  function CreateErrors(body: Body): (r: set<string>)
    ensures r == {} <==> TextAccepted(body) && PriorityAccepted(body) && Extraneous(body, {"text", "priority"}) == {}
  {
    Extraneous(body, {"text", "priority"})
    + (if TextAccepted(body) then {} else {"text"})
    + (if PriorityAccepted(body) then {} else {"priority"})
  }

  /**
    Validates a create body: accepted exactly when it has no errors; the text is taken as
    sent (1 to 500 characters) and an absent priority becomes medium.
   */
  function ParseCreate(body: Body): (r: Result<CreateTodoDto, ValidationError>)
    ensures r.Success? <==> CreateErrors(body) == {}
    ensures r.Failure? ==> r.error.fields != {}
    ensures r.Success? ==> 0 < |r.value.text| <= MaxTextLength && body["text"] == Str(r.value.text)
    ensures r.Success? && "priority" !in body ==> r.value.priority == DefaultPriority
    ensures r.Success? && "priority" in body ==> body["priority"] == Str(PriorityName(r.value.priority))
  {
    var errors := CreateErrors(body);
    if errors != {} then Failure(Invalid(errors))
    else
      var priority := if "priority" in body then ParsePriority(body["priority"].s).value else DefaultPriority;
      Success(CreateTodoDto(body["text"].s, priority))
  }

  /** The body a client sends for a text and a priority. */
  function CreateBody(text: string, priority: Priority): Body {
    map["text" := Str(text), "priority" := Str(PriorityName(priority))]
  }

  /**
    A body carrying a text and a priority is accepted exactly when the text is non-empty and
    at most 500 characters long, and then it reads back as sent.
   */
  lemma CreateBodyAccepted(text: string, priority: Priority)
    ensures ParseCreate(CreateBody(text, priority)).Success? <==> text != "" && |text| <= MaxTextLength
    ensures text != "" && |text| <= MaxTextLength ==>
              ParseCreate(CreateBody(text, priority)) == Success(CreateTodoDto(text, priority))
  {
    var body := CreateBody(text, priority);
    assert Extraneous(body, {"text", "priority"}) == {};
    PriorityRoundTrip(priority);
  }
}
