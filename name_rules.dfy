/** The validation rules registered for the category-name field: the name is
    required, and its length must lie between 3 and 50 characters. The rules
    are checked in the order required, minimum length, maximum length, and the
    first one broken decides the message shown under the field. */
module NameRules {

  const MinLength: nat := 3
  const MaxLength: nat := 50

  const RequiredMessage := "Please enter category name."
  const MinLengthMessage := "Category Name must be at least 3 characters long."
  const MaxLengthMessage := "Category Name cannot exceed 50 characters."

  datatype Rule = Required | MinLengthRule | MaxLengthRule

  /** The outcome of validating the name field. */
  datatype Verdict = Accepted | Rejected(rule: Rule, message: string)

  /** The message registered for each rule. */
  function Message(rule: Rule): string {
    match rule
    case Required => RequiredMessage
    case MinLengthRule => MinLengthMessage
    case MaxLengthRule => MaxLengthMessage
  }

  /** Validates the field value `name`. */
  function Validate(name: string): (v: Verdict)
    ensures v.Accepted? <==> MinLength <= |name| <= MaxLength
    ensures v.Rejected? ==> v.message == Message(v.rule)
    ensures v.Rejected? && v.rule == Required <==> name == ""
    ensures v.Rejected? && v.rule == MinLengthRule <==> 1 <= |name| < MinLength
    ensures v.Rejected? && v.rule == MaxLengthRule <==> |name| > MaxLength
  {
    if name == "" then Rejected(Required, RequiredMessage)
    else if |name| < MinLength then Rejected(MinLengthRule, MinLengthMessage)
    else if |name| > MaxLength then Rejected(MaxLengthRule, MaxLengthMessage)
    else Accepted
  }

  /** The three messages are different, so the message shown names the rule
      that was broken. */
  lemma MessagesIdentifyRules(r1: Rule, r2: Rule)
    ensures Message(r1) == Message(r2) <==> r1 == r2
  {
  }
}
