/** The human-readable rendering of validator failures: one
    "<field> is invalid" per failing field, joined with ", ". */
module RequestError {
  import opened Common

  const InvalidSuffix: string := " is invalid"

  /** The message for each field error, in the validator's order. */
  function FieldMessages(errs: seq<FieldError>): (r: seq<string>)
    ensures |r| == |errs|
  {
    seq(|errs|, i requires 0 <= i < |errs| => errs[i].field + InvalidSuffix)
  }

  /** ValidationError: a validator error becomes one joined message; any
      other error is returned unchanged. */
  function ValidationError(e: Error): (r: Error)
    ensures !e.ValidationErrors? ==> r == e
    ensures e.ValidationErrors? ==> r.Text?
    ensures e.ValidationErrors? && |e.errs| == 0 ==> r == Text("")
    ensures e.ValidationErrors? && |e.errs| == 1 ==> r == Text(e.errs[0].field + " is invalid")
  {
    match e
    case ValidationErrors(errs) => Text(Join(FieldMessages(errs), ", "))
    case _ => e
  }

  /** Every failing field is reported: when no field name contains a comma,
      splitting the message at the commas gives back exactly one piece per
      field error, in order, the first as is and the rest after the blank
      of the separator. */
  lemma MessagesRecoverable(errs: seq<FieldError>)
    requires |errs| >= 1
    requires forall i :: 0 <= i < |errs| ==> NoChar(errs[i].field, ',')
    ensures var pieces := SplitOn(ValidationError(ValidationErrors(errs)).msg, ',');
      && |pieces| == |errs|
      && pieces[0] == errs[0].field + " is invalid"
      && forall i :: 1 <= i < |errs| ==> pieces[i] == " " + errs[i].field + " is invalid"
  {
    var msgs := FieldMessages(errs);
    forall i | 0 <= i < |msgs| ensures NoChar(msgs[i], ',') {
      assert msgs[i] == errs[i].field + InvalidSuffix;
      assert NoChar(InvalidSuffix, ',');
    }
    assert ", " == [','] + " ";
    SplitJoin(msgs, ',', " ");
  }
}
