/** The credential prompts of `src/save-credentials.js`: a non-empty validator and one question per login field. */
module Credentials {

  /** The value of the login field that is entered masked, and the prompt type used for it. */
  const PASSWORD_FIELD := "password"

  /** A prompt validator's answer: `true`, or the message to show. */
  datatype Validation = Accepted | Rejected(message: string)

  /** `validateNonEmpty(field, input)`: any non-empty answer is accepted. */
  function ValidateNonEmpty(field: string, input: string): (v: Validation)
    ensures v.Accepted? <==> input != ""
    ensures v.Rejected? ==> v.message == field + " must be non empty"
  {
    if input != "" then Accepted else Rejected(field + " must be non empty")
  }

  /** One prompt: its type, the answer's key, the text shown, and the validator bound to the field. */
  datatype Question = Question(kind: string, name: string, message: string, validate: string -> Validation)

  /** The question asked for one login field. */
  function QuestionFor(field: string): (q: Question)
    ensures q.name == field
    ensures q.message == "Enter value for " + field + ":"
    ensures q.kind == PASSWORD_FIELD <==> field == PASSWORD_FIELD
    ensures q.kind != PASSWORD_FIELD ==> q.kind == "input"
    ensures forall input :: q.validate(input) == ValidateNonEmpty(field, input)
  {
    Question(
      if field == PASSWORD_FIELD then PASSWORD_FIELD else "input",
      field,
      "Enter value for " + field + ":",
      input => ValidateNonEmpty(field, input))
  }

  /** `loginFields.map(...)`: one question per login field, in order. */
  function Questions(loginFields: seq<string>): (qs: seq<Question>)
    ensures |qs| == |loginFields|
    ensures forall i :: 0 <= i < |loginFields| ==>
              && qs[i].name == loginFields[i]
              && qs[i].message == "Enter value for " + loginFields[i] + ":"
              && (qs[i].kind == PASSWORD_FIELD <==> loginFields[i] == PASSWORD_FIELD)
              && (qs[i].kind != PASSWORD_FIELD ==> qs[i].kind == "input")
  {
    seq(|loginFields|, i requires 0 <= i < |loginFields| => QuestionFor(loginFields[i]))
  }

  /** The answers are keyed by field: distinct login fields give distinct question names. */
  lemma QuestionNamesDistinct(loginFields: seq<string>)
    requires forall i, j :: 0 <= i < j < |loginFields| ==> loginFields[i] != loginFields[j]
    ensures forall i, j :: 0 <= i < j < |loginFields| ==> Questions(loginFields)[i].name != Questions(loginFields)[j].name
  {
  }

  /** Each question rejects exactly the empty answer, naming its own field. */
  lemma QuestionValidates(loginFields: seq<string>, i: nat, input: string)
    requires i < |loginFields|
    ensures Questions(loginFields)[i].validate(input)
            == (if input == "" then Rejected(loginFields[i] + " must be non empty") else Accepted)
  {
    assert Questions(loginFields)[i] == QuestionFor(loginFields[i]);
  }
}
