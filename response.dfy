/**
 * `ValidationErrorMessage`: one sentence per failed validation rule, joined by
 * ", ", and the plain text of any other error.  The validator's errors are
 * given as a list of (field, rule tag, rule parameter).
 */
module Response {
  import opened Text

  /** One failed rule of the validator. */
  datatype FieldError = FieldError(field: string, tag: string, param: string)

  /** An error as the handlers see it: the validator's list, or any other error with its text. */
  datatype Error = Validation(errors: seq<FieldError>) | Other(text: string)

  const Separator := ", "

  // The fixed parts of the sentences.
  const IsRequired := " is required"
  const IsNotEmail := " must be a valid email"
  const AtLeast := " must be at least "
  const AtMost := " must be at most "
  const Characters := " characters"
  const OneOf := " must be one of: "
  const IsInvalid := " is invalid"

  /** The sentence for one failed rule. */
  function Message(e: FieldError): (m: string)
    ensures HasPrefix(m, e.field)
  {
    var rest :=
      if e.tag == "required" then IsRequired
      else if e.tag == "email" then IsNotEmail
      else if e.tag == "min" then AtLeast + e.param + Characters
      else if e.tag == "max" then AtMost + e.param + Characters
      else if e.tag == "oneof" then OneOf + e.param
      else IsInvalid;
    assert (e.field + rest)[..|e.field|] == e.field;
    e.field + rest
  }

  /** The sentences of a list of failed rules, in the list's order. */
  function Messages(errors: seq<FieldError>): (ms: seq<string>)
    ensures |ms| == |errors|
  {
    seq(|errors|, i requires 0 <= i < |errors| => Message(errors[i]))
  }

  lemma MessagesSnoc(errors: seq<FieldError>, e: FieldError)
    ensures Messages(errors + [e]) == Messages(errors) + [Message(e)]
  {
  }

  /** What `ValidationErrorMessage` returns. */
  function ErrorText(err: Error): (r: string)
    ensures err.Other? ==> r == err.text
    ensures err.Validation? && err.errors == [] ==> r == ""
  {
    match err
    case Validation(errors) => Join(Messages(errors), Separator)
    case Other(text) => text
  }

  /** `ValidationErrorMessage`: the loop that collects the sentences, then the join. */
  method ValidationErrorMessage(err: Error) returns (s: string)
    ensures s == ErrorText(err)
  {
    if err.Other? {
      return err.text;
    }
    var errors := err.errors;
    var messages: seq<string> := [];
    var i := 0;
    while i < |errors|
      invariant 0 <= i <= |errors|
      invariant messages == Messages(errors[..i])
    {
      var e := errors[i];
      var m;
      if e.tag == "required" {
        m := e.field + IsRequired;
      } else if e.tag == "email" {
        m := e.field + IsNotEmail;
      } else if e.tag == "min" {
        m := e.field + (AtLeast + e.param + Characters);
      } else if e.tag == "max" {
        m := e.field + (AtMost + e.param + Characters);
      } else if e.tag == "oneof" {
        m := e.field + (OneOf + e.param);
      } else {
        m := e.field + IsInvalid;
      }
      assert m == Message(e);
      MessagesSnoc(errors[..i], e);
      assert errors[..i + 1] == errors[..i] + [e];
      messages := messages + [m];
      i := i + 1;
    }
    assert errors[..i] == errors;
    return Join(messages, Separator);
  }

  /** The rules without a parameter say the same for every parameter; an unknown rule says the field is invalid. */
  lemma ParameterOnlyInBounds(e: FieldError, param: string)
    requires e.tag != "min" && e.tag != "max" && e.tag != "oneof"
    ensures Message(e) == Message(e.(param := param))
    ensures e.tag != "required" && e.tag != "email" ==> Message(e) == e.field + " is invalid"
  {
  }

  /** The length and one-of rules end their sentence with the parameter they failed. */
  lemma ParameterIsQuoted(e: FieldError)
    requires e.tag == "oneof"
    ensures |Message(e)| >= |e.param| && Message(e)[|Message(e)| - |e.param|..] == e.param
  {
    var m := Message(e);
    assert m == (e.field + OneOf) + e.param;
  }

  /**
   * With no comma in any field or parameter, the joined text splits back at its
   * commas into the sentences, one per failed rule and in order.
   */
  lemma ValidationTextSplits(errors: seq<FieldError>)
    requires |errors| >= 1
    requires forall i :: 0 <= i < |errors| ==> ',' !in errors[i].field && ',' !in errors[i].param
    ensures Split(ErrorText(Validation(errors)), ',') == Spaced(Messages(errors))
  {
    var ms := Messages(errors);
    forall i | 0 <= i < |ms|
      ensures ',' !in ms[i]
    {
      MessageCommaFree(errors[i]);
    }
    SplitJoinSpaced(ms, ',');
  }

  lemma MessageCommaFree(e: FieldError)
    requires ',' !in e.field && ',' !in e.param
    ensures ',' !in Message(e)
  {
    FixedPartsCommaFree();
  }

  lemma FixedPartsCommaFree()
    ensures ',' !in IsRequired && ',' !in IsNotEmail && ',' !in AtLeast && ',' !in AtMost
    ensures ',' !in Characters && ',' !in OneOf && ',' !in IsInvalid
  {
  }
}
