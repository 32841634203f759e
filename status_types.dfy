/**
 * The values the status tracker works on: the parsed status document of the
 * status page (components, incidents, the snapshot) and the chat messages
 * it renders (a message with one attachment made of titled fields).
 *
 * Timestamps are whole milliseconds; how a timestamp is rendered as text
 * depends on locale and time zone and is passed to the presenter as a
 * function.
 */
module StatusTypes {
  import opened Options

  /** A component as the status page reports it. `groupId` is None for a
      JSON `null` (or a missing `group_id`). */
  datatype Component = Component(
    id: string,
    name: string,
    status: string,
    groupId: Option<string>,
    updatedAt: int)

  /** An incident; `updates` holds the `body` of each entry of
      `incident_updates`, most recent first. */
  datatype Incident = Incident(
    name: string,
    status: string,
    createdAt: int,
    updatedAt: int,
    updates: seq<string>,
    components: seq<Component>)

  /** The status document: `status.description` and `incidents`. */
  datatype Snapshot = Snapshot(description: string, incidents: seq<Incident>)

  /** A titled field of a chat attachment; `short` is None when the field
      leaves it out. */
  datatype Field = Field(title: string, value: string, short: Option<bool>)

  datatype Attachment = Attachment(
    fallback: Option<string>,
    color: string,
    title: Option<string>,
    fields: seq<Field>,
    footer: string,
    footerIcon: string)

  /** A message with its optional header text and its one attachment. */
  datatype Message = Message(text: Option<string>, attachment: Attachment)

  const Footer := "Insights Statusbot"
  const FooterIcon := "https://platform.slack-edge.com/img/default_application_icon.png"

}
