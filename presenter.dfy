/**
 * Rendering of the tracker's state as chat messages: the component list
 * with its running colour, and one incident with its latest note.
 */
module Presenter {
  import opened Options
  import opened StatusTypes
  import Severity

  const ServicesTitle := "Insights Services Status"

  /** One step of the colour of the component list: an operational
      component turns the colour "good" unless it is "warn"; after "warn"
      every component turns it "danger"; any other component turns it
      "warn". */
  function Step(symbol: string, status: string): string {
    if status == "operational" && symbol != "warn" then "good"
    else if symbol == "warn" then "danger"
    else "warn"
  }

  /** The colour after visiting the components in order, starting from "". */
  function Colour(cs: seq<Component>): (symbol: string)
    ensures symbol == "" <==> cs == []
    ensures symbol == "" || symbol == "good" || symbol == "warn" || symbol == "danger"
  {
    if cs == [] then "" else Step(Colour(cs[..|cs| - 1]), cs[|cs| - 1].status)
  }

  /** The length of the run of non-operational components at the end of `cs`. */
  function TrailingDown(cs: seq<Component>): nat {
    if cs == [] || cs[|cs| - 1].status == "operational" then 0
    else TrailingDown(cs[..|cs| - 1]) + 1
  }

  /** The colour described by the last run of non-operational components:
      an odd run gives "warn", a non-empty even run "danger"; after an
      operational last component, "danger" when the run before it is odd
      and "good" otherwise. */
  function RunColour(cs: seq<Component>): string {
    if cs == [] then ""
    else if TrailingDown(cs) % 2 == 1 then "warn"
    else if TrailingDown(cs) > 0 then "danger"
    else if TrailingDown(cs[..|cs| - 1]) % 2 == 1 then "danger"
    else "good"
  }

  /** The running colour depends only on the last run of non-operational
      components, not on the worst status seen. */
  lemma {:induction false} ColourIsRunColour(cs: seq<Component>)
    ensures Colour(cs) == RunColour(cs)
  {
    if cs != [] {
      var init := cs[..|cs| - 1];
      ColourIsRunColour(init);
      if init != [] {
        assert init[..|init| - 1] == cs[..|cs| - 2];
      }
    }
  }

  /** A non-empty list of operational components is "good". */
  lemma {:induction false} AllOperationalIsGood(cs: seq<Component>)
    requires cs != []
    requires forall i | 0 <= i < |cs| :: cs[i].status == "operational"
    ensures Colour(cs) == "good"
  {
    ColourIsRunColour(cs);
  }

  /** "warn" exactly when the list ends in an odd run of non-operational components. */
  lemma WarnIffOddTrailingRun(cs: seq<Component>)
    ensures Colour(cs) == "warn" <==> TrailingDown(cs) % 2 == 1
  {
    ColourIsRunColour(cs);
  }

  /** The transitions of the colour on one more component: from "warn"
      every component leads to "danger"; from "", "good" or "danger" an
      operational component leads to "good" and any other to "warn". */
  lemma ColourTransitions(cs: seq<Component>, c: Component)
    ensures Colour(cs) == "warn" ==> Colour(cs + [c]) == "danger"
    ensures Colour(cs) != "warn" && c.status == "operational" ==> Colour(cs + [c]) == "good"
    ensures Colour(cs) != "warn" && c.status != "operational" ==> Colour(cs + [c]) == "warn"
  {
    assert (cs + [c])[..|cs|] == cs;
  }

  function ComponentField(c: Component, dateText: int -> string): Field {
    Field(c.name + ": `" + c.status + "`", "Updated at: " + dateText(c.updatedAt), Some(false))
  }

  function ComponentFields(cs: seq<Component>, dateText: int -> string): (fs: seq<Field>)
    ensures |fs| == |cs|
    ensures forall i | 0 <= i < |cs| :: fs[i] == ComponentField(cs[i], dateText)
  {
    seq(|cs|, i requires 0 <= i < |cs| => ComponentField(cs[i], dateText))
  }

  /** What one more entry adds to the report: one colour step and one field. */
  lemma ReportStep(cs: seq<Component>, i: nat, dateText: int -> string)
    requires i < |cs|
    ensures Colour(cs[..i + 1]) == Step(Colour(cs[..i]), cs[i].status)
    ensures ComponentFields(cs[..i + 1], dateText) == ComponentFields(cs[..i], dateText) + [ComponentField(cs[i], dateText)]
  {
    assert cs[..i + 1][..i] == cs[..i];
  }

  /** The component report for the entries `cs` of the table, in iteration order. */
  function ComponentsMessage(cs: seq<Component>, dateText: int -> string): Message {
    Message(None, Attachment(Some(ServicesTitle), Colour(cs), Some(ServicesTitle),
                             ComponentFields(cs, dateText), Footer, FooterIcon))
  }

  /** The message for one incident, or None where the source fails on an
      incident without any update. */
  function FormatIncident(incident: Incident, header: string, dateText: int -> string): (r: Option<Message>)
    ensures r.Some? <==> |incident.updates| > 0
    ensures r.Some? ==>
      && r.value.text == Some(header)
      && r.value.attachment.color == Severity.Symbol(incident.status)
      && |r.value.attachment.fields| == 2
      && r.value.attachment.fields[0].title == incident.name
      && r.value.attachment.fields[0].value ==
           "Status: `" + incident.status + "`\nCreated at: " + dateText(incident.createdAt)
           + "\nUpdated at: " + dateText(incident.updatedAt)
      && r.value.attachment.fields[1] == Field("Note:", incident.updates[0], None)
  {
    if |incident.updates| == 0 then None
    else
      var status := Field(incident.name,
                          "Status: `" + incident.status + "`\nCreated at: " + dateText(incident.createdAt)
                          + "\nUpdated at: " + dateText(incident.updatedAt),
                          Some(false));
      var note := Field("Note:", incident.updates[0], None);
      Some(Message(Some(header), Attachment(None, Severity.Symbol(incident.status), None, [status, note], Footer, FooterIcon)))
  }

  // The component report as the loop in the source runs it. Because an
  // enumerable `isEmpty` is added to every object's prototype, `for...in`
  // visits one more key after the table's own keys: the function itself,
  // whose `status` is undefined (so not "operational"), whose `name` is the
  // empty string and whose `updated_at` makes an invalid date.

  const PhantomStatus := "undefined"
  const PhantomField := Field(": `undefined`", "Updated at: Invalid Date", Some(false))

  function ComponentsMessageAsWritten(cs: seq<Component>, dateText: int -> string): Message {
    Message(None, Attachment(Some(ServicesTitle), Step(Colour(cs), PhantomStatus), Some(ServicesTitle),
                             ComponentFields(cs, dateText) + [PhantomField], Footer, FooterIcon))
  }

  /** As written, the report always carries one field too many and is never
      "good" nor uncoloured; the report over the own entries has one field
      per entry and is "good" whenever every entry is operational. */
  lemma PhantomEntry(cs: seq<Component>, dateText: int -> string)
    ensures var m := ComponentsMessageAsWritten(cs, dateText).attachment;
      && |m.fields| == |cs| + 1
      && m.fields[|cs|] == PhantomField
      && (m.color == "warn" || m.color == "danger")
    ensures var m := ComponentsMessage(cs, dateText).attachment;
      && |m.fields| == |cs|
      && (m.color == "" <==> cs == [])
    ensures cs != [] && (forall i | 0 <= i < |cs| :: cs[i].status == "operational") ==>
      ComponentsMessage(cs, dateText).attachment.color == "good"
      && ComponentsMessageAsWritten(cs, dateText).attachment.color == "warn"
  {
    if cs != [] && (forall i | 0 <= i < |cs| :: cs[i].status == "operational") {
      AllOperationalIsGood(cs);
    }
  }

}
