/** The task detail workspace of the command center: the text shown for each
    command of the timeline. */
module TaskDetailWorkspace {
  import opened Hierarchy

  /** JavaScript truthiness of an optional string: present and not empty. */
  predicate Truthy(o: Option<string>)
  {
    o.Some? && o.value != ""
  }

  /** `commandBody`: the output summary if there is one, else the error message if
      there is one, else the command text. */
  function CommandBody(c: Command): (r: string)
    ensures r == c.text || Some(r) == c.outputSummary || Some(r) == c.errorMessage
    ensures ValidCommand(c) ==> r != ""
  {
    if Truthy(c.outputSummary) then c.outputSummary.value
    else if Truthy(c.errorMessage) then c.errorMessage.value
    else c.text
  }

  /** The precedence of the three fields. */
  lemma CommandBodyChoice(c: Command)
    ensures Truthy(c.outputSummary) ==> CommandBody(c) == c.outputSummary.value
    ensures !Truthy(c.outputSummary) && Truthy(c.errorMessage) ==> CommandBody(c) == c.errorMessage.value
    ensures !Truthy(c.outputSummary) && !Truthy(c.errorMessage) ==> CommandBody(c) == c.text
  {
  }
}
